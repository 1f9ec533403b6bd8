/**
 The broker side of metering: a reservation is taken before a request is dispatched and
 reconciled with the reported usage afterwards, for every way the call can end.
 */
module InferenceBroker {
  import opened Prelude
  import opened InferenceContracts

  /** One stored result; `dispatched` is false for results rejected without a call. */
  datatype Entry = Entry(work: Work, result: Result, dispatched: bool)

  /**
   `inflight` is the request whose call is running under the episode's lock; `leaked` are the calls
   that ended in an exception nobody catches, whose reservations stay charged without a stored result.
   */
  datatype Broker = Broker(entries: seq<Entry>, requests: nat, tokens: int, cost: real, closed: bool,
                           inflight: Option<Work>, dispatches: seq<nat>, leaked: seq<Work>)

  /** How a dispatched call ends; an answer may carry no usable usage, and an exception may be none of those caught. */
  datatype Outcome =
    | Answered(content: Option<nat>, usage: Option<(nat, nat)>)
    | ProviderFailure
    | ProviderTimeout
    | DeadlineExceeded
    | CallCancelled
    | Escapes

  datatype BeginReply = Inactive | IdReused | Stored(result: Result) | Refused(result: Result) | Dispatched

  function Lookup(es: seq<Entry>, id: nat): (r: Option<nat>)
    ensures r.Some? ==> r.value < |es| && es[r.value].work.id == id
    ensures r.None? ==> forall i :: 0 <= i < |es| ==> es[i].work.id != id
  {
    if es == [] then None
    else
      var n := |es| - 1;
      if es[n].work.id == id then Some(n) else Lookup(es[..n], id)
  }

  function Zero(w: Work, code: nat): Result {
    Result(None, Audit(w.id, w.hash, Rejected, code, 0, 0, 0.0, NotDispatched))
  }

  function Reserved(p: Profile, w: Work, status: AuditStatus): Result {
    Result(None, Audit(w.id, w.hash, status, 0, ReserveInput(w), p.maxOutput, ReserveCost(p, w), Reservation))
  }

  /** The first limit the request would break, in the order they are checked. */
  function Rejection(p: Profile, b: Broker, w: Work): Option<nat> {
    if !w.modelAllowed then Some(1)
    else if w.size > p.maxInputBytes then Some(2)
    else if b.requests >= p.maxRequests then Some(3)
    else if b.tokens + ReserveTokens(p, w) > p.maxTotalTokens then Some(4)
    else if b.cost + ReserveCost(p, w) > p.maxCost then Some(5)
    else None
  }

  /** The counters as a call is dispatched with this reservation. */
  function Reserve(b: Broker, w: Work, tokens: nat, cost: real): Broker {
    b.(requests := b.requests + 1, tokens := b.tokens + tokens, cost := b.cost + cost,
       inflight := Some(w), dispatches := b.dispatches + [w.id])
  }

  /** The counters as the reservation is replaced by the result. */
  function Reconcile(b: Broker, w: Work, r: Result, tokens: nat, cost: real): Broker {
    b.(entries := b.entries + [Entry(w, r, true)],
       tokens := b.tokens + Tokens(r) - tokens,
       cost := Max(0.0, b.cost + r.audit.cost - cost),
       inflight := None)
  }

  function BeginCall(p: Profile, b: Broker, w: Work): (Broker, BeginReply) {
    if b.closed then (b, Inactive)
    else
      match Lookup(b.entries, w.id)
      case Some(i) => (b, if b.entries[i].work.hash == w.hash then Stored(b.entries[i].result) else IdReused)
      case None =>
        match Rejection(p, b, w)
        case Some(code) => (b.(entries := b.entries + [Entry(w, Zero(w, code), false)]), Refused(Zero(w, code)))
        case None => (Reserve(b, w, ReserveTokens(p, w), ReserveCost(p, w)), Dispatched)
  }

  predicate ValidUsage(usage: Option<(nat, nat)>) {
    usage.Some? && usage.value.0 <= 100_000_000 && usage.value.1 <= 100_000_000
  }

  function ResultOf(p: Profile, w: Work, o: Outcome): Result
    requires !o.Escapes?
  {
    match o
    case Answered(content, usage) =>
      if ValidUsage(usage) then
        Result(content, Audit(w.id, w.hash, Succeeded, 0, usage.value.0, usage.value.1,
                              Price(p, usage.value.0, usage.value.1), Provider))
      else Reserved(p, w, Succeeded).(content := content)
    case ProviderFailure => Reserved(p, w, Failed)
    case ProviderTimeout => Reserved(p, w, TimedOut)
    case DeadlineExceeded => Reserved(p, w, TimedOut)
    case CallCancelled => Reserved(p, w, CancelledCall)
  }

  function FinishCall(p: Profile, b: Broker, o: Outcome): Broker
    requires b.inflight.Some?
  {
    var w := b.inflight.value;
    if o.Escapes? then b.(inflight := None, leaked := b.leaked + [w])
    else Reconcile(b, w, ResultOf(p, w, o), ReserveTokens(p, w), ReserveCost(p, w))
  }

  /** The caller gets an exception instead of a result. */
  predicate CallRaises(p: Profile, b: Broker, w: Work, o: Outcome) {
    || b.closed
    || match Lookup(b.entries, w.id)
       case Some(i) => b.entries[i].work.hash != w.hash
       case None => Rejection(p, b, w).None? && (o.CallCancelled? || o.Escapes?)
  }

  // ---------------------------------------------------------------- accounting

  function TokenList(es: seq<Entry>): seq<int> {
    seq(|es|, i requires 0 <= i < |es| => Tokens(es[i].result))
  }

  function CostList(es: seq<Entry>): seq<real> {
    seq(|es|, i requires 0 <= i < |es| => es[i].result.audit.cost)
  }

  function DispatchedCount(es: seq<Entry>): nat {
    if es == [] then 0
    else DispatchedCount(es[..|es| - 1]) + (if es[|es| - 1].dispatched then 1 else 0)
  }

  /** How far reported usage went past its reservation. */
  function TokenOver(p: Profile, e: Entry): int {
    if e.dispatched && Tokens(e.result) > ReserveTokens(p, e.work)
    then Tokens(e.result) - ReserveTokens(p, e.work) else 0
  }

  function CostOver(p: Profile, e: Entry): real {
    if e.dispatched then Max(0.0, e.result.audit.cost - ReserveCost(p, e.work)) else 0.0
  }

  function TokenOvers(p: Profile, es: seq<Entry>): seq<int> {
    seq(|es|, i requires 0 <= i < |es| => TokenOver(p, es[i]))
  }

  function CostOvers(p: Profile, es: seq<Entry>): seq<real> {
    seq(|es|, i requires 0 <= i < |es| => CostOver(p, es[i]))
  }

  function LeakedTokens(p: Profile, ws: seq<Work>): nat {
    if ws == [] then 0 else LeakedTokens(p, ws[..|ws| - 1]) + ReserveTokens(p, ws[|ws| - 1])
  }

  function LeakedCost(p: Profile, ws: seq<Work>): real {
    if ws == [] then 0.0 else LeakedCost(p, ws[..|ws| - 1]) + ReserveCost(p, ws[|ws| - 1])
  }

  function LeakedIds(ws: seq<Work>): seq<nat> {
    seq(|ws|, i requires 0 <= i < |ws| => ws[i].id)
  }

  function InflightTokens(p: Profile, b: Broker): nat {
    if b.inflight.Some? then ReserveTokens(p, b.inflight.value) else 0
  }

  function InflightCost(p: Profile, b: Broker): real {
    if b.inflight.Some? then ReserveCost(p, b.inflight.value) else 0.0
  }

  predicate DistinctIds(es: seq<Entry>) {
    forall i, j :: 0 <= i < j < |es| ==> es[i].work.id != es[j].work.id
  }

  predicate EntryOk(p: Profile, e: Entry) {
    && e.result.audit.id == e.work.id && e.result.audit.hash == e.work.hash
    && e.result.audit.cost == Price(p, e.result.audit.input, e.result.audit.output)
    && (!e.dispatched ==> Tokens(e.result) == 0)
  }

  predicate Counters(p: Profile, b: Broker) {
    && b.tokens == Total(TokenList(b.entries)) + InflightTokens(p, b) + LeakedTokens(p, b.leaked)
    && b.cost == Sum(CostList(b.entries)) + InflightCost(p, b) + LeakedCost(p, b.leaked)
    && b.requests == DispatchedCount(b.entries) + (if b.inflight.Some? then 1 else 0) + |b.leaked|
  }

  predicate Limits(p: Profile, b: Broker) {
    && b.requests <= p.maxRequests
    && b.tokens <= p.maxTotalTokens + Total(TokenOvers(p, b.entries))
    && b.cost <= p.maxCost + Sum(CostOvers(p, b.entries))
  }

  /** How often an id is accounted for among dispatched results, leaked calls and the call in flight. */
  function Accounted(b: Broker, id: nat): nat {
    var i := Lookup(b.entries, id);
    (if i.Some? && b.entries[i.value].dispatched then 1 else 0)
    + (if b.inflight.Some? && b.inflight.value.id == id then 1 else 0)
    + multiset(LeakedIds(b.leaked))[id]
  }

  ghost predicate DispatchLog(b: Broker) {
    forall id: nat :: multiset(b.dispatches)[id] == Accounted(b, id)
  }

  ghost predicate BrokerInv(p: Profile, b: Broker) {
    && Counters(p, b)
    && Limits(p, b)
    && DispatchLog(b)
    && DistinctIds(b.entries)
    && (forall i :: 0 <= i < |b.entries| ==> EntryOk(p, b.entries[i]))
    && (b.inflight.Some? ==> Lookup(b.entries, b.inflight.value.id).None?)
  }

  lemma AppendEntry(p: Profile, es: seq<Entry>, e: Entry)
    ensures Total(TokenList(es + [e])) == Total(TokenList(es)) + Tokens(e.result)
    ensures Sum(CostList(es + [e])) == Sum(CostList(es)) + e.result.audit.cost
    ensures Total(TokenOvers(p, es + [e])) == Total(TokenOvers(p, es)) + TokenOver(p, e)
    ensures Sum(CostOvers(p, es + [e])) == Sum(CostOvers(p, es)) + CostOver(p, e)
    ensures DispatchedCount(es + [e]) == DispatchedCount(es) + (if e.dispatched then 1 else 0)
  {
    assert (es + [e])[..|es|] == es;
    assert TokenList(es + [e]) == TokenList(es) + [Tokens(e.result)];
    assert CostList(es + [e]) == CostList(es) + [e.result.audit.cost];
    assert TokenOvers(p, es + [e]) == TokenOvers(p, es) + [TokenOver(p, e)];
    assert CostOvers(p, es + [e]) == CostOvers(p, es) + [CostOver(p, e)];
    TotalAppend(TokenList(es), Tokens(e.result));
    SumAppend(CostList(es), e.result.audit.cost);
    TotalAppend(TokenOvers(p, es), TokenOver(p, e));
    SumAppend(CostOvers(p, es), CostOver(p, e));
  }

  lemma AppendLookup(es: seq<Entry>, e: Entry, id: nat)
    requires Lookup(es, e.work.id).None?
    ensures Lookup(es + [e], id) == if e.work.id == id then Some(|es|) else Lookup(es, id)
  {
    assert (es + [e])[..|es|] == es;
  }

  lemma RejectCounts(p: Profile, b: Broker, w: Work, code: nat)
    requires Counters(p, b) && Limits(p, b) && b.inflight.None?
    ensures var t := b.(entries := b.entries + [Entry(w, Zero(w, code), false)]); Counters(p, t) && Limits(p, t)
  {
    AppendEntry(p, b.entries, Entry(w, Zero(w, code), false));
  }

  lemma RejectLogged(b: Broker, e: Entry)
    requires DispatchLog(b) && DistinctIds(b.entries) && b.inflight.None? && Lookup(b.entries, e.work.id).None?
    requires !e.dispatched
    ensures var t := b.(entries := b.entries + [e]); DispatchLog(t) && DistinctIds(t.entries)
  {
    var t := b.(entries := b.entries + [e]);
    forall id: nat ensures Accounted(t, id) == Accounted(b, id) {
      AppendLookup(b.entries, e, id);
    }
  }

  lemma RejectKeeps(p: Profile, b: Broker, w: Work, code: nat)
    requires BrokerInv(p, b) && b.inflight.None? && Lookup(b.entries, w.id).None?
    ensures BrokerInv(p, b.(entries := b.entries + [Entry(w, Zero(w, code), false)]))
  {
    RejectCounts(p, b, w, code);
    RejectLogged(b, Entry(w, Zero(w, code), false));
    assert Price(p, 0, 0) == 0.0;
  }

  /** Admission leaves room for the whole reservation. */
  lemma DispatchCounts(p: Profile, b: Broker, w: Work)
    requires Counters(p, b) && Limits(p, b) && b.inflight.None? && Rejection(p, b, w).None?
    ensures var t := Reserve(b, w, ReserveTokens(p, w), ReserveCost(p, w)); Counters(p, t) && Limits(p, t)
  {
    SumNonNegative(CostOvers(p, b.entries));
    TotalNonNegative(TokenOvers(p, b.entries));
  }

  lemma DispatchLogged(b: Broker, w: Work, tokens: nat, cost: real)
    requires DispatchLog(b) && b.inflight.None? && Lookup(b.entries, w.id).None?
    ensures DispatchLog(Reserve(b, w, tokens, cost))
  {
    var t := Reserve(b, w, tokens, cost);
    forall id: nat ensures Accounted(t, id) == Accounted(b, id) + if id == w.id then 1 else 0 {
    }
  }

  lemma DispatchKeeps(p: Profile, b: Broker, w: Work)
    requires BrokerInv(p, b) && b.inflight.None? && !b.closed
    requires Lookup(b.entries, w.id).None? && Rejection(p, b, w).None?
    ensures BrokerInv(p, BeginCall(p, b, w).0)
  {
    DispatchCounts(p, b, w);
    DispatchLogged(b, w, ReserveTokens(p, w), ReserveCost(p, w));
  }

  lemma BeginKeeps(p: Profile, b: Broker, w: Work)
    requires BrokerInv(p, b) && b.inflight.None?
    ensures BrokerInv(p, BeginCall(p, b, w).0)
  {
    if !b.closed && Lookup(b.entries, w.id).None? {
      if Rejection(p, b, w).Some? {
        RejectKeeps(p, b, w, Rejection(p, b, w).value);
      } else {
        DispatchKeeps(p, b, w);
      }
    }
  }

  /** What a beginning leaves behind, by its reply. */
  predicate BeginShape(b: Broker, w: Work, t: Broker, reply: BeginReply) {
    match reply
    case Stored(r) =>
      && t == b && !b.closed
      && Lookup(b.entries, w.id).Some?
      && b.entries[Lookup(b.entries, w.id).value].work.hash == w.hash
      && b.entries[Lookup(b.entries, w.id).value].result == r
      && r.audit.id == w.id
    case Refused(r) =>
      && t == b.(entries := b.entries + [Entry(w, r, false)])
      && Lookup(b.entries, w.id).None?
      && r.audit.id == w.id
    case Dispatched => t.entries == b.entries && t.inflight == Some(w) && t.leaked == b.leaked
    case IdReused =>
      && t == b && !b.closed
      && Lookup(b.entries, w.id).Some?
      && b.entries[Lookup(b.entries, w.id).value].work.hash != w.hash
    case Inactive => t == b && b.closed
  }

  lemma BeginIs(p: Profile, b: Broker, w: Work)
    requires BrokerInv(p, b) && b.inflight.None?
    ensures var (t, reply) := BeginCall(p, b, w); BrokerInv(p, t) && BeginShape(b, w, t, reply)
  {
    BeginKeeps(p, b, w);
    var i := Lookup(b.entries, w.id);
    if i.Some? {
      assert EntryOk(p, b.entries[i.value]);
    }
  }

  lemma {:induction false} LeakedCostNonNegative(p: Profile, ws: seq<Work>)
    requires ValidProfile(p)
    ensures LeakedCost(p, ws) >= 0.0
  {
    if ws != [] {
      LeakedCostNonNegative(p, ws[..|ws| - 1]);
      ReservationPositive(p, ws[|ws| - 1]);
    }
  }

  lemma CostsCoverPending(p: Profile, b: Broker)
    requires ValidProfile(p) && BrokerInv(p, b)
    ensures b.cost >= InflightCost(p, b)
  {
    forall i | 0 <= i < |b.entries| ensures CostList(b.entries)[i] >= 0.0 {
      PriceMonotone(p, 0, 0, b.entries[i].result.audit.input, b.entries[i].result.audit.output);
    }
    SumNonNegative(CostList(b.entries));
    LeakedCostNonNegative(p, b.leaked);
  }

  /** Counters and limits after one more entry takes the place of its reservation. */
  lemma EntryCounts(p: Profile, b: Broker, t: Broker, w: Work, r: Result)
    requires Counters(p, b) && Limits(p, b) && b.inflight == Some(w)
    requires t.entries == b.entries + [Entry(w, r, true)] && t.inflight.None? && t.requests == b.requests
    requires t.leaked == b.leaked
    requires t.tokens == b.tokens + Tokens(r) - ReserveTokens(p, w)
    requires t.cost == b.cost + r.audit.cost - ReserveCost(p, w)
    ensures Counters(p, t) && Limits(p, t)
  {
    AppendEntry(p, b.entries, Entry(w, r, true));
  }

  lemma EntryLogged(b: Broker, t: Broker, w: Work, e: Entry)
    requires DispatchLog(b) && DistinctIds(b.entries) && b.inflight == Some(w) && Lookup(b.entries, w.id).None?
    requires t.entries == b.entries + [e] && t.inflight.None? && t.dispatches == b.dispatches && t.leaked == b.leaked
    requires e.work == w && e.dispatched
    ensures DispatchLog(t) && DistinctIds(t.entries)
  {
    forall id: nat ensures Accounted(t, id) == Accounted(b, id) {
      AppendLookup(b.entries, e, id);
    }
  }

  lemma ResultIs(p: Profile, w: Work, o: Outcome)
    requires ValidProfile(p) && !o.Escapes?
    ensures EntryOk(p, Entry(w, ResultOf(p, w, o), true)) && ResultOf(p, w, o).audit.cost >= 0.0
  {
    var r := ResultOf(p, w, o);
    PriceMonotone(p, 0, 0, r.audit.input, r.audit.output);
  }

  /** The clamp at zero never bites. */
  lemma FinishCost(p: Profile, b: Broker, o: Outcome)
    requires ValidProfile(p) && BrokerInv(p, b) && b.inflight.Some? && !o.Escapes?
    ensures FinishCall(p, b, o).cost
            == b.cost + ResultOf(p, b.inflight.value, o).audit.cost - ReserveCost(p, b.inflight.value)
  {
    ResultIs(p, b.inflight.value, o);
    CostsCoverPending(p, b);
  }

  /** Reconciliation: every outcome that is caught replaces the reservation by the stored result. */
  lemma FinishKeeps(p: Profile, b: Broker, o: Outcome)
    requires ValidProfile(p) && BrokerInv(p, b) && b.inflight.Some? && !o.Escapes?
    ensures
      var t := FinishCall(p, b, o);
      var r := ResultOf(p, b.inflight.value, o);
      && BrokerInv(p, t)
      && t.entries == b.entries + [Entry(b.inflight.value, r, true)] && t.inflight.None?
      && t.cost == b.cost + r.audit.cost - ReserveCost(p, b.inflight.value)
  {
    var w := b.inflight.value;
    var r, t := ResultOf(p, w, o), FinishCall(p, b, o);
    ResultIs(p, w, o);
    FinishCost(p, b, o);
    EntryCounts(p, b, t, w, r);
    EntryLogged(b, t, w, Entry(w, r, true));
  }

  lemma LeakedAppend(p: Profile, ws: seq<Work>, w: Work)
    ensures LeakedTokens(p, ws + [w]) == LeakedTokens(p, ws) + ReserveTokens(p, w)
    ensures LeakedCost(p, ws + [w]) == LeakedCost(p, ws) + ReserveCost(p, w)
    ensures LeakedIds(ws + [w]) == LeakedIds(ws) + [w.id]
  {
    assert (ws + [w])[..|ws|] == ws;
  }

  /** An exception that is not caught leaves the reservation charged and nothing stored. */
  lemma EscapeKeeps(p: Profile, b: Broker)
    requires BrokerInv(p, b) && b.inflight.Some?
    ensures BrokerInv(p, FinishCall(p, b, Escapes))
  {
    var w, t := b.inflight.value, FinishCall(p, b, Escapes);
    LeakedAppend(p, b.leaked, w);
    forall id: nat ensures Accounted(t, id) == Accounted(b, id) {
    }
  }

  /** A result that reports exactly the reservation leaves the counters as they were reserved. */
  lemma ReservationStays(b: Broker, w: Work, r: Result, tokens: nat, cost: real)
    requires Tokens(r) == tokens && r.audit.cost == cost && b.cost >= 0.0 && cost >= 0.0
    ensures Reconcile(Reserve(b, w, tokens, cost), w, r, tokens, cost)
            == b.(requests := b.requests + 1, tokens := b.tokens + tokens, cost := b.cost + cost,
                  entries := b.entries + [Entry(w, r, true)], dispatches := b.dispatches + [w.id], inflight := None)
  {
  }

  lemma CostsNonNegative(p: Profile, b: Broker, w: Work)
    requires ValidProfile(p) && BrokerInv(p, b) && b.inflight.None?
    ensures b.cost >= 0.0 && ReserveCost(p, w) >= 0.0
  {
    CostsCoverPending(p, b);
    ReservationPositive(p, w);
  }

  lemma ReservationPositive(p: Profile, w: Work)
    requires ValidProfile(p)
    ensures ReserveCost(p, w) >= 0.0
  {
    PriceMonotone(p, 0, 0, ReserveInput(w), p.maxOutput);
  }

  /** One whole call: a request with the way it would end if it is dispatched. */
  function One(p: Profile, b: Broker, call: (Work, Outcome)): Broker
    requires b.inflight.None?
  {
    var (t, reply) := BeginCall(p, b, call.0);
    if reply.Dispatched? then FinishCall(p, t, call.1) else t
  }

  /** A sequence of whole calls. */
  function Serve(p: Profile, b: Broker, calls: seq<(Work, Outcome)>): Broker
    requires b.inflight.None?
    decreases |calls|
  {
    if calls == [] then b
    else
      Serve(p, One(p, b, calls[0]), calls[1..])
  }

  lemma ServeOne(p: Profile, b: Broker, w: Work, o: Outcome)
    requires b.inflight.None?
    ensures Serve(p, b, [(w, o)]) == One(p, b, (w, o))
  {
    var u := One(p, b, (w, o));
    assert [(w, o)][1..] == [];
    assert Serve(p, u, []) == u;
  }

  /** What one whole call comes to, by the reason it ends for. */
  lemma ServeIs(p: Profile, b: Broker, w: Work, o: Outcome)
    requires ValidProfile(p) && BrokerInv(p, b) && b.inflight.None?
    ensures
      var t := Serve(p, b, [(w, o)]);
      && BrokerInv(p, t)
      && (b.closed || Lookup(b.entries, w.id).Some? ==> t == b)
      && (!b.closed && Lookup(b.entries, w.id).None? ==>
            match Rejection(p, b, w)
            case Some(code) => t == b.(entries := b.entries + [Entry(w, Zero(w, code), false)])
            case None => t == FinishCall(p, BeginCall(p, b, w).0, o))
  {
    ServeOne(p, b, w, o);
    ServeKeeps(p, b, [(w, o)]);
  }

  lemma ServeRefused(p: Profile, b: Broker, w: Work, o: Outcome, code: nat)
    requires ValidProfile(p) && BrokerInv(p, b) && b.inflight.None? && !b.closed
    requires Lookup(b.entries, w.id).None? && Rejection(p, b, w) == Some(code)
    ensures
      var t := b.(entries := b.entries + [Entry(w, Zero(w, code), false)]);
      Serve(p, b, [(w, o)]) == t && BrokerInv(p, t)
  {
    ServeIs(p, b, w, o);
  }

  lemma ServeDispatched(p: Profile, b: Broker, w: Work, o: Outcome)
    requires ValidProfile(p) && BrokerInv(p, b) && b.inflight.None? && !b.closed
    requires Lookup(b.entries, w.id).None? && Rejection(p, b, w).None? && !o.Escapes?
    ensures
      var tokens, cost := ReserveTokens(p, w), ReserveCost(p, w);
      var t := Reconcile(Reserve(b, w, tokens, cost), w, ResultOf(p, w, o), tokens, cost);
      Serve(p, b, [(w, o)]) == t && BrokerInv(p, t)
  {
    ServeIs(p, b, w, o);
  }

  lemma ServeEscapes(p: Profile, b: Broker, w: Work)
    requires ValidProfile(p) && BrokerInv(p, b) && b.inflight.None? && !b.closed
    requires Lookup(b.entries, w.id).None? && Rejection(p, b, w).None?
    ensures
      var t := Reserve(b, w, ReserveTokens(p, w), ReserveCost(p, w)).(inflight := None, leaked := b.leaked + [w]);
      Serve(p, b, [(w, Escapes)]) == t && BrokerInv(p, t)
  {
    ServeIs(p, b, w, Escapes);
  }

  lemma CancelledIsReservation(p: Profile, w: Work)
    ensures var r := ResultOf(p, w, CallCancelled);
            Tokens(r) == ReserveTokens(p, w) && r.audit.cost == ReserveCost(p, w)
  {
  }

  // ---------------------------------------------------------------- what one call answers

  /** The price at the operator's rates, which are per million tokens. */
  function Bill(p: Profile, input: nat, output: nat): real {
    (input as real * p.inputRate + output as real * p.outputRate) / 1000000.0
  }

  lemma PriceIsBill(p: Profile, input: nat, output: nat)
    ensures Price(p, input, output) == Bill(p, input, output)
  {
    ScaleIsProduct(p.inputRate, input);
    ScaleIsProduct(p.outputRate, output);
    var a, b := input as real * p.inputRate, output as real * p.outputRate;
    assert Scale(p.inputRate, input) == a && Scale(p.outputRate, output) == b;
    assert Price(p, input, output) == (a + b) / 1000000.0;
  }

  /** An audit that reports what was reserved for the request. */
  predicate AtReservation(p: Profile, w: Work, status: AuditStatus, a: Audit) {
    var input := w.size + 64 * w.messages + 256;
    a == Audit(w.id, w.hash, status, 0, input, p.maxOutput, Bill(p, input, p.maxOutput), Reservation)
  }

  /** What is stored for a call that was dispatched and ended this way. */
  predicate Reports(p: Profile, w: Work, o: Outcome, r: Result)
    requires !o.Escapes?
  {
    match o
    case Answered(content, usage) =>
      && r.content == content
      && (if usage.Some? && usage.value.0 <= 100_000_000 && usage.value.1 <= 100_000_000
          then r.audit == Audit(w.id, w.hash, Succeeded, 0, usage.value.0, usage.value.1,
                                Bill(p, usage.value.0, usage.value.1), Provider)
          else AtReservation(p, w, Succeeded, r.audit))
    case ProviderFailure => r.content.None? && AtReservation(p, w, Failed, r.audit)
    case ProviderTimeout => r.content.None? && AtReservation(p, w, TimedOut, r.audit)
    case DeadlineExceeded => r.content.None? && AtReservation(p, w, TimedOut, r.audit)
    case CallCancelled => r.content.None? && AtReservation(p, w, CancelledCall, r.audit)
  }

  /** The request is within every limit of the profile, with its whole reservation. */
  predicate Admitted(p: Profile, b: Broker, w: Work) {
    var input := w.size + 64 * w.messages + 256;
    && w.modelAllowed && w.size <= p.maxInputBytes && b.requests < p.maxRequests
    && b.tokens + input + p.maxOutput <= p.maxTotalTokens
    && b.cost + Bill(p, input, p.maxOutput) <= p.maxCost
  }

  /** The first limit that a request breaks: model, input, requests, tokens, cost. */
  predicate FirstBroken(p: Profile, b: Broker, w: Work, code: nat) {
    var tokens := w.size + 64 * w.messages + 256 + p.maxOutput;
    1 <= code <= 5
    && (code == 1 <==> !w.modelAllowed)
    && (code > 2 ==> w.size <= p.maxInputBytes) && (code == 2 ==> w.size > p.maxInputBytes)
    && (code > 3 ==> b.requests < p.maxRequests) && (code == 3 ==> b.requests >= p.maxRequests)
    && (code > 4 ==> b.tokens + tokens <= p.maxTotalTokens) && (code == 4 ==> b.tokens + tokens > p.maxTotalTokens)
  }

  predicate Unseen(es: seq<Entry>, id: nat) {
    forall k :: 0 <= k < |es| ==> es[k].work.id != id
  }

  /** A closed broker and a request seen before change nothing; a repeat with the same content gets the stored result. */
  predicate Repeats(b: Broker, w: Work, t: Broker, answer: Option<Result>) {
    && t == b
    && (answer.Some? <==> !b.closed && exists k :: 0 <= k < |b.entries| && b.entries[k].work.id == w.id
                                                   && b.entries[k].work.hash == w.hash)
    && (answer.Some? ==> exists k :: 0 <= k < |b.entries| && b.entries[k].work.id == w.id
                                     && b.entries[k].result == answer.value)
  }

  /** A request outside a limit is stored with nothing charged. */
  predicate Rejects(p: Profile, b: Broker, w: Work, t: Broker, answer: Option<Result>) {
    && answer.Some?
    && t == b.(entries := b.entries + [Entry(w, answer.value, false)])
    && answer.value.content.None?
    && FirstBroken(p, b, w, answer.value.audit.code)
    && answer.value.audit == Audit(w.id, w.hash, Rejected, answer.value.audit.code, 0, 0, 0.0, NotDispatched)
  }

  /** A call that was dispatched: stored and charged as it reports, or charged its reservation and nothing stored. */
  predicate Dispatches(p: Profile, b: Broker, w: Work, o: Outcome, t: Broker, answer: Option<Result>) {
    && t.requests == b.requests + 1 && t.dispatches == b.dispatches + [w.id] && t.closed == b.closed
    && (answer.None? <==> o.Escapes? || o.CallCancelled?)
    && (if o.Escapes? then
          var input := w.size + 64 * w.messages + 256;
          && t.entries == b.entries && t.leaked == b.leaked + [w]
          && t.tokens == b.tokens + input + p.maxOutput && t.cost == b.cost + Bill(p, input, p.maxOutput)
        else
          && |t.entries| == |b.entries| + 1 && t.leaked == b.leaked
          && var r := t.entries[|b.entries|].result;
             && t.entries == b.entries + [Entry(w, r, true)] && Reports(p, w, o, r)
             && t.tokens == b.tokens + r.audit.input + r.audit.output && t.cost == b.cost + r.audit.cost
             && (answer.Some? ==> answer.value == r))
  }

  /** One whole call by what it is given: the request, the limits, what is stored, and how the call ends. */
  predicate CallMeans(p: Profile, b: Broker, w: Work, o: Outcome, t: Broker, answer: Option<Result>) {
    if b.closed || !Unseen(b.entries, w.id) then Repeats(b, w, t, answer)
    else if !Admitted(p, b, w) then Rejects(p, b, w, t, answer)
    else Dispatches(p, b, w, o, t, answer)
  }

  /** The answer of a call as the caller gets it, `None` for an exception. */
  predicate AnswerIs(p: Profile, b: Broker, w: Work, o: Outcome, t: Broker, answer: Option<Result>) {
    if CallRaises(p, b, w, o) then answer.None?
    else
      var i := Lookup(t.entries, w.id);
      i.Some? && answer == Some(t.entries[i.value].result)
  }

  lemma ResultReports(p: Profile, w: Work, o: Outcome)
    requires !o.Escapes?
    ensures Reports(p, w, o, ResultOf(p, w, o))
  {
    PriceIsBill(p, ReserveInput(w), p.maxOutput);
    if o.Answered? && o.usage.Some? {
      PriceIsBill(p, o.usage.value.0, o.usage.value.1);
    }
  }

  lemma RejectionIs(p: Profile, b: Broker, w: Work)
    ensures Rejection(p, b, w).None? <==> Admitted(p, b, w)
    ensures Rejection(p, b, w).Some? ==> FirstBroken(p, b, w, Rejection(p, b, w).value)
  {
    PriceIsBill(p, ReserveInput(w), p.maxOutput);
  }

  lemma RepeatsAnswer(p: Profile, b: Broker, w: Work, o: Outcome, answer: Option<Result>)
    requires DistinctIds(b.entries) && (b.closed || !Unseen(b.entries, w.id)) && AnswerIs(p, b, w, o, b, answer)
    ensures Repeats(b, w, b, answer)
  {
  }

  lemma RejectsAnswer(p: Profile, b: Broker, w: Work, o: Outcome, answer: Option<Result>)
    requires !b.closed && Unseen(b.entries, w.id) && Rejection(p, b, w).Some?
    requires
      var t := b.(entries := b.entries + [Entry(w, Zero(w, Rejection(p, b, w).value), false)]);
      AnswerIs(p, b, w, o, t, answer)
    ensures Rejects(p, b, w, b.(entries := b.entries + [Entry(w, Zero(w, Rejection(p, b, w).value), false)]), answer)
  {
    RejectionIs(p, b, w);
  }

  lemma DispatchesAnswer(p: Profile, b: Broker, w: Work, o: Outcome, t: Broker, answer: Option<Result>)
    requires ValidProfile(p) && BrokerInv(p, b) && b.inflight.None? && !b.closed && Unseen(b.entries, w.id)
    requires Rejection(p, b, w).None? && t == FinishCall(p, BeginCall(p, b, w).0, o) && AnswerIs(p, b, w, o, t, answer)
    ensures Dispatches(p, b, w, o, t, answer)
  {
    PriceIsBill(p, ReserveInput(w), p.maxOutput);
    DispatchKeeps(p, b, w);
    if !o.Escapes? {
      ResultReports(p, w, o);
      FinishCost(p, BeginCall(p, b, w).0, o);
    }
  }

  /** The answer and the new state of one call, without reference to how they are computed. */
  lemma CompleteMeans(p: Profile, b: Broker, w: Work, o: Outcome, answer: Option<Result>)
    requires ValidProfile(p) && BrokerInv(p, b) && b.inflight.None?
    requires AnswerIs(p, b, w, o, Serve(p, b, [(w, o)]), answer)
    ensures CallMeans(p, b, w, o, Serve(p, b, [(w, o)]), answer)
  {
    ServeIs(p, b, w, o);
    RejectionIs(p, b, w);
    if b.closed || !Unseen(b.entries, w.id) {
      RepeatsAnswer(p, b, w, o, answer);
    } else if Rejection(p, b, w).Some? {
      RejectsAnswer(p, b, w, o, answer);
    } else {
      DispatchesAnswer(p, b, w, o, Serve(p, b, [(w, o)]), answer);
    }
  }

  function Opened(): Broker {
    Broker([], 0, 0, 0.0, false, None, [], [])
  }

  lemma OpenedInv(p: Profile)
    requires ValidProfile(p)
    ensures BrokerInv(p, Opened())
  {
    assert TokenList([]) == [] && CostList([]) == [] && TokenOvers(p, []) == [] && CostOvers(p, []) == [];
  }

  lemma OneKeeps(p: Profile, b: Broker, call: (Work, Outcome))
    requires ValidProfile(p) && BrokerInv(p, b) && b.inflight.None?
    ensures BrokerInv(p, One(p, b, call))
  {
    var (t, reply) := BeginCall(p, b, call.0);
    BeginKeeps(p, b, call.0);
    if reply.Dispatched? {
      if call.1.Escapes? {
        EscapeKeeps(p, t);
      } else {
        FinishKeeps(p, t, call.1);
      }
    }
  }

  lemma {:induction false} ServeKeeps(p: Profile, b: Broker, calls: seq<(Work, Outcome)>)
    requires ValidProfile(p) && BrokerInv(p, b) && b.inflight.None?
    ensures BrokerInv(p, Serve(p, b, calls)) && Serve(p, b, calls).inflight.None?
    decreases |calls|
  {
    if calls != [] {
      OneKeeps(p, b, calls[0]);
      ServeKeeps(p, One(p, b, calls[0]), calls[1..]);
    }
  }

  lemma {:induction false} NothingOver(p: Profile, es: seq<Entry>)
    requires ValidProfile(p)
    requires forall i :: 0 <= i < |es| ==> EntryOk(p, es[i]) && (es[i].dispatched ==> WithinReservation(p, es[i].work, es[i].result))
    ensures Total(TokenOvers(p, es)) == 0 && Sum(CostOvers(p, es)) == 0.0
  {
    if es != [] {
      var n := |es| - 1;
      var e := es[n];
      NothingOver(p, es[..n]);
      assert es == es[..n] + [e];
      AppendEntry(p, es[..n], e);
      if e.dispatched {
        PriceMonotone(p, e.result.audit.input, e.result.audit.output, ReserveInput(e.work), p.maxOutput);
      }
    }
  }

  predicate Distinct(ids: seq<nat>) {
    forall i, j :: 0 <= i < j < |ids| ==> ids[i] != ids[j]
  }

  lemma {:induction false} DistinctCounts(ids: seq<nat>)
    ensures Distinct(ids) <==> forall id: nat :: multiset(ids)[id] <= 1
  {
    if ids != [] {
      var n := |ids| - 1;
      assert ids == ids[..n] + [ids[n]];
      DistinctCounts(ids[..n]);
      assert multiset(ids) == multiset(ids[..n]) + multiset{ids[n]};
      if forall id: nat :: multiset(ids)[id] <= 1 {
        forall id: nat ensures multiset(ids[..n])[id] <= 1 {
          assert multiset(ids)[id] <= 1;
        }
        assert multiset(ids)[ids[n]] <= 1;
        assert ids[n] !in multiset(ids[..n]);
      }
      if Distinct(ids) {
        assert ids[n] !in ids[..n];
        assert ids[n] !in multiset(ids[..n]);
      }
    }
  }

  lemma {:induction false} NoEscapes(p: Profile, b: Broker, calls: seq<(Work, Outcome)>)
    requires b.inflight.None? && forall k :: 0 <= k < |calls| ==> !calls[k].1.Escapes?
    ensures Serve(p, b, calls).leaked == b.leaked
    decreases |calls|
  {
    if calls != [] {
      NoEscapes(p, One(p, b, calls[0]), calls[1..]);
    }
  }

  /** The call is admitted although an earlier call with its id escaped. */
  predicate Again(p: Profile, b: Broker, w: Work)
    requires b.inflight.None?
  {
    && !b.closed && Lookup(b.entries, w.id).None? && Rejection(p, b, w).None?
    && w.id in LeakedIds(b.leaked)
  }

  /** No call of the run is admitted although an earlier call with its id escaped. */
  predicate NeverAgain(p: Profile, b: Broker, calls: seq<(Work, Outcome)>)
    requires b.inflight.None?
    decreases |calls|
  {
    calls == [] || (!Again(p, b, calls[0].0) && NeverAgain(p, One(p, b, calls[0]), calls[1..]))
  }

  lemma OneLogged(p: Profile, b: Broker, call: (Work, Outcome))
    requires b.inflight.None?
    ensures One(p, b, call).dispatches == b.dispatches + if BeginCall(p, b, call.0).1.Dispatched? then [call.0.id] else []
  {
  }

  lemma {:induction false} LogGrows(p: Profile, b: Broker, calls: seq<(Work, Outcome)>)
    requires b.inflight.None?
    ensures b.dispatches <= Serve(p, b, calls).dispatches
    decreases |calls|
  {
    if calls != [] {
      OneLogged(p, b, calls[0]);
      LogGrows(p, One(p, b, calls[0]), calls[1..]);
    }
  }

  /** Only a leaked call leaves its id without a stored result. */
  lemma UnstoredIsLeaked(b: Broker, id: nat)
    requires DispatchLog(b) && b.inflight.None? && Lookup(b.entries, id).None?
    ensures id in b.dispatches <==> id in LeakedIds(b.leaked)
  {
    assert multiset(b.dispatches)[id] == Accounted(b, id) == multiset(LeakedIds(b.leaked))[id];
    assert id in multiset(b.dispatches) <==> id in multiset(LeakedIds(b.leaked));
  }

  lemma OneDistinct(p: Profile, b: Broker, call: (Work, Outcome))
    requires BrokerInv(p, b) && b.inflight.None? && Distinct(b.dispatches)
    ensures Distinct(One(p, b, call).dispatches) <==> !Again(p, b, call.0)
  {
    OneLogged(p, b, call);
    var id, n := call.0.id, |b.dispatches|;
    if BeginCall(p, b, call.0).1.Dispatched? {
      UnstoredIsLeaked(b, id);
      assert (b.dispatches + [id])[n] == id;
      if id in b.dispatches {
        var i :| 0 <= i < n && b.dispatches[i] == id;
        assert (b.dispatches + [id])[i] == id;
      }
    }
  }

  /** Further calls dispatch no id a second time exactly when none of them is admitted after one with its id escaped. */
  lemma {:induction false} DispatchedOnceIff(p: Profile, b: Broker, calls: seq<(Work, Outcome)>)
    requires ValidProfile(p) && BrokerInv(p, b) && b.inflight.None? && Distinct(b.dispatches)
    ensures Distinct(Serve(p, b, calls).dispatches) <==> NeverAgain(p, b, calls)
    decreases |calls|
  {
    if calls != [] {
      var t := One(p, b, calls[0]);
      OneKeeps(p, b, calls[0]);
      OneDistinct(p, b, calls[0]);
      if Again(p, b, calls[0].0) {
        LogGrows(p, t, calls[1..]);
      } else {
        DispatchedOnceIff(p, t, calls[1..]);
      }
    }
  }

  /** An escaped call's request that is made again is dispatched and charged again. */
  lemma EscapedIsDispatchedAgain(p: Profile, w: Work)
    requires w.modelAllowed && w.size <= p.maxInputBytes && p.maxRequests >= 2
    requires 2 * ReserveTokens(p, w) <= p.maxTotalTokens
    requires ReserveCost(p, w) >= 0.0 && ReserveCost(p, w) + ReserveCost(p, w) <= p.maxCost
    ensures var b := Serve(p, Opened(), [(w, Escapes), (w, CallCancelled)]);
            && b.dispatches == [w.id, w.id]
            && b.tokens == 2 * ReserveTokens(p, w) && b.cost == ReserveCost(p, w) + ReserveCost(p, w)
            && |b.entries| == 1
  {
    var first, second := (w, Escapes), (w, CallCancelled);
    var t := One(p, Opened(), first);
    CancelledIsReservation(p, w);
    assert [first, second][1..] == [second];
    ServeOne(p, t, w, CallCancelled);
  }

  /**
   After any sequence of calls the counters are the sums over the stored results and the reservations of calls that
   leaked; each request id was dispatched at most once exactly when no call was admitted after one with its id escaped;
   and the totals stay within the profile when every provider's reported usage stays within its reservation.
   Without an uncaught exception nothing leaks, and each id is dispatched at most once.
   */
  lemma ServedWithinProfile(p: Profile, calls: seq<(Work, Outcome)>, b: Broker)
    requires ValidProfile(p) && b == Serve(p, Opened(), calls)
    ensures b.tokens == Total(TokenList(b.entries)) + LeakedTokens(p, b.leaked)
    ensures b.cost == Sum(CostList(b.entries)) + LeakedCost(p, b.leaked)
    ensures b.requests == DispatchedCount(b.entries) + |b.leaked| <= p.maxRequests
    ensures Distinct(b.dispatches) <==> NeverAgain(p, Opened(), calls)
    ensures (forall k :: 0 <= k < |calls| ==> !calls[k].1.Escapes?) ==> b.leaked == [] && Distinct(b.dispatches)
    ensures (forall i :: 0 <= i < |b.entries| && b.entries[i].dispatched ==>
               WithinReservation(p, b.entries[i].work, b.entries[i].result))
            ==> b.tokens <= p.maxTotalTokens && b.cost <= p.maxCost
  {
    OpenedInv(p);
    ServeKeeps(p, Opened(), calls);
    DispatchedOnceIff(p, Opened(), calls);
    DispatchedWithoutEscapes(p, calls, b);
    if forall i :: 0 <= i < |b.entries| && b.entries[i].dispatched ==> WithinReservation(p, b.entries[i].work, b.entries[i].result) {
      NothingOver(p, b.entries);
    }
  }

  lemma DispatchedWithoutEscapes(p: Profile, calls: seq<(Work, Outcome)>, b: Broker)
    requires DispatchLog(b) && b.inflight.None? && b == Serve(p, Opened(), calls)
    ensures (forall k :: 0 <= k < |calls| ==> !calls[k].1.Escapes?) ==> b.leaked == [] && Distinct(b.dispatches)
  {
    DistinctCounts(b.dispatches);
    if forall k :: 0 <= k < |calls| ==> !calls[k].1.Escapes? {
      NoEscapes(p, Opened(), calls);
      assert LeakedIds(b.leaked) == [];
    }
  }
}
