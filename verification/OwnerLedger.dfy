/**
 The owner's cost ledger over all sessions: creation reserves a session's maximum under
 the quota checks, the event that ends a session releases it and records what was spent.
 */
module OwnerLedger {
  import opened Prelude
  import opened SessionStore
  import opened SessionProtocol
  import opened SessionInvariants
  import opened SessionClaims
  import opened SessionTheorems

  datatype System = System(owner: Owner, sessions: seq<Session>)

  datatype SystemEvent = Create(request: NewSession, found: bool) | In(session: nat, event: Event)

  function Rows(ss: seq<Session>): seq<Durable> {
    seq(|ss|, i requires 0 <= i < |ss| => ss[i].db)
  }

  function CreateNext(quota: Quota, sys: System, q: NewSession, found: bool): System {
    if q.maxCost >= 0.0 && CreateOutcome(quota, sys.owner, Rows(sys.sessions), q, found).Created?
    then System(sys.owner.(reserved := sys.owner.reserved + q.maxCost), sys.sessions + [Fresh(q)])
    else sys
  }

  function SystemNext(quota: Quota, sys: System, e: SystemEvent): System {
    match e
    case Create(q, found) => CreateNext(quota, sys, q, found)
    case In(i, event) =>
      if i >= |sys.sessions| then sys
      else
        var t := Next(sys.sessions[i], event);
        System(Settle(sys.owner, sys.sessions[i].db, t.db), sys.sessions[i := t])
  }

  function SystemRun(quota: Quota, sys: System, es: seq<SystemEvent>): System
    decreases |es|
  {
    if es == [] then sys else SystemRun(quota, SystemNext(quota, sys, es[0]), es[1..])
  }

  // ---------------------------------------------------------------- what the ledger means

  function Reservation(d: Durable): real {
    if d.row.released then 0.0 else d.row.maxCost
  }

  function Charge(d: Durable): real {
    if d.settled.Some? then d.settled.value else 0.0
  }

  /** By how much a settlement exceeded what had been reserved for it. */
  function Excess(d: Durable): real {
    if d.settled.Some? then Max(0.0, d.settled.value - d.row.maxCost) else 0.0
  }

  function Reservations(ss: seq<Session>): seq<real> {
    seq(|ss|, i requires 0 <= i < |ss| => Reservation(ss[i].db))
  }

  function Charges(ss: seq<Session>): seq<real> {
    seq(|ss|, i requires 0 <= i < |ss| => Charge(ss[i].db))
  }

  function Excesses(ss: seq<Session>): seq<real> {
    seq(|ss|, i requires 0 <= i < |ss| => Excess(ss[i].db))
  }

  predicate LedgerRow(d: Durable) {
    && d.row.maxCost >= 0.0
    && (d.row.released <==> d.settled.Some?)
    && (d.settled.Some? ==> d.settled.value <= Max(d.row.maxCost, d.costUsed))
  }

  predicate LedgerInv(quota: Quota, sys: System) {
    && (forall i :: 0 <= i < |sys.sessions| ==> LedgerRow(sys.sessions[i].db))
    && sys.owner.reserved == Sum(Reservations(sys.sessions))
    && sys.owner.spent == Sum(Charges(sys.sessions))
    && sys.owner.spent + sys.owner.reserved <= quota.costLimit + Sum(Excesses(sys.sessions))
  }

  predicate KeysDiffer(ss: seq<Session>) {
    forall i, j :: 0 <= i < j < |ss| ==> ss[i].db.row.key != ss[j].db.row.key
  }

  lemma UpdateSums(ss: seq<Session>, k: nat, t: Session)
    requires k < |ss|
    ensures Sum(Reservations(ss[k := t])) == Sum(Reservations(ss)) - Reservation(ss[k].db) + Reservation(t.db)
    ensures Sum(Charges(ss[k := t])) == Sum(Charges(ss)) - Charge(ss[k].db) + Charge(t.db)
    ensures Sum(Excesses(ss[k := t])) == Sum(Excesses(ss)) - Excess(ss[k].db) + Excess(t.db)
  {
    assert Reservations(ss[k := t]) == Reservations(ss)[k := Reservation(t.db)];
    assert Charges(ss[k := t]) == Charges(ss)[k := Charge(t.db)];
    assert Excesses(ss[k := t]) == Excesses(ss)[k := Excess(t.db)];
    SumUpdate(Reservations(ss), k, Reservation(t.db));
    SumUpdate(Charges(ss), k, Charge(t.db));
    SumUpdate(Excesses(ss), k, Excess(t.db));
  }

  lemma AppendSums(ss: seq<Session>, t: Session)
    ensures Sum(Reservations(ss + [t])) == Sum(Reservations(ss)) + Reservation(t.db)
    ensures Sum(Charges(ss + [t])) == Sum(Charges(ss)) + Charge(t.db)
    ensures Sum(Excesses(ss + [t])) == Sum(Excesses(ss)) + Excess(t.db)
  {
    assert Reservations(ss + [t]) == Reservations(ss) + [Reservation(t.db)];
    assert Charges(ss + [t]) == Charges(ss) + [Charge(t.db)];
    assert Excesses(ss + [t]) == Excesses(ss) + [Excess(t.db)];
    SumAppend(Reservations(ss), Reservation(t.db));
    SumAppend(Charges(ss), Charge(t.db));
    SumAppend(Excesses(ss), Excess(t.db));
  }

  /** No event of a session reopens a reservation, rewrites a settlement or changes the maximum. */
  lemma LedgerRowEarly(s: Session, e: Event)
    requires LedgerRow(s.db) && !e.Retire?
    ensures
      var t := Next(s, e).db;
      LedgerRow(t) && t.row.released == s.db.row.released && t.settled == s.db.settled && t.costUsed >= s.db.costUsed
      && t.row.maxCost == s.db.row.maxCost && t.row.key == s.db.row.key
  {
  }

  /** What a session may change of what the ledger depends on. */
  predicate LedgerMove(d: Durable, t: Durable) {
    && LedgerRow(d) && LedgerRow(t) && t.row.maxCost == d.row.maxCost && t.row.key == d.row.key
    && (d.row.released ==> t.row.released && t.settled == d.settled)
  }

  lemma LedgerRowStep(s: Session, e: Event)
    requires LedgerRow(s.db)
    ensures
      LedgerMove(s.db, Next(s, e).db)
  {
    if !e.Retire? {
      LedgerRowEarly(s, e);
    }
  }

  /** The clamp in `release` never bites: what is subtracted is still part of the sum. */
  lemma ReservationCovered(quota: Quota, sys: System, i: nat)
    requires LedgerInv(quota, sys) && i < |sys.sessions|
    ensures sys.owner.reserved >= Reservation(sys.sessions[i].db)
  {
    SumBounds(Reservations(sys.sessions), i);
  }

  lemma LedgerSettles(quota: Quota, sys: System, i: nat, t: Session)
    requires LedgerInv(quota, sys) && i < |sys.sessions| && LedgerMove(sys.sessions[i].db, t.db)
    ensures LedgerInv(quota, System(Settle(sys.owner, sys.sessions[i].db, t.db), sys.sessions[i := t]))
  {
    UpdateSums(sys.sessions, i, t);
    ReservationCovered(quota, sys, i);
  }

  lemma LedgerStep(quota: Quota, sys: System, e: SystemEvent)
    requires LedgerInv(quota, sys)
    ensures LedgerInv(quota, SystemNext(quota, sys, e))
  {
    match e
    case Create(q, found) =>
      AppendSums(sys.sessions, Fresh(q));
      SumNonNegative(Excesses(sys.sessions));
    case In(i, event) =>
      if i < |sys.sessions| {
        LedgerRowStep(sys.sessions[i], event);
        LedgerSettles(quota, sys, i, Next(sys.sessions[i], event));
      }
  }

  /**
   In every run of every interleaving the reserved cost is the sum of the maxima of unreleased
   sessions, the spent cost is the sum of the settlements, and their total passes the limit by no
   more than settlements passed their own maxima.
   */
  lemma {:induction false} LedgerRun(quota: Quota, sys: System, es: seq<SystemEvent>)
    requires LedgerInv(quota, sys)
    ensures LedgerInv(quota, SystemRun(quota, sys, es))
    decreases |es|
  {
    if es != [] {
      LedgerStep(quota, sys, es[0]);
      LedgerRun(quota, SystemNext(quota, sys, es[0]), es[1..]);
    }
  }

  function Start(): System {
    System(Owner(0.0, 0.0), [])
  }

  lemma {:induction false} NoExcess(ss: seq<Session>)
    requires forall i :: 0 <= i < |ss| ==> Excess(ss[i].db) == 0.0
    ensures Sum(Excesses(ss)) == 0.0
  {
    if ss != [] {
      var n := |ss| - 1;
      NoExcess(ss[..n]);
      assert Excesses(ss) == Excesses(ss[..n]) + [Excess(ss[n].db)];
      SumAppend(Excesses(ss[..n]), Excess(ss[n].db));
    }
  }

  /** When no campaign used more than its session's maximum, the owner's limit is never passed. */
  lemma WithinLimit(quota: Quota, es: seq<SystemEvent>, sys: System)
    requires quota.costLimit >= 0.0 && sys == SystemRun(quota, Start(), es)
    requires forall i :: 0 <= i < |sys.sessions| ==> sys.sessions[i].db.costUsed <= sys.sessions[i].db.row.maxCost
    ensures sys.owner.spent + sys.owner.reserved <= quota.costLimit
  {
    assert Reservations([]) == [] && Charges([]) == [] && Excesses([]) == [];
    LedgerRun(quota, Start(), es);
    NoExcess(sys.sessions);
  }

  // ---------------------------------------------------------------- sessions under the quota

  lemma {:induction false} LiveUpdate(rows: seq<Durable>, k: nat, t: Durable)
    requires k < |rows| && (Terminal(rows[k].row.state) ==> Terminal(t.row.state))
    ensures LiveRows(rows[k := t]) <= LiveRows(rows)
  {
    var n := |rows| - 1;
    if k == n {
      assert rows[k := t][..n] == rows[..n];
    } else {
      assert rows[k := t][..n] == rows[..n][k := t];
      LiveUpdate(rows[..n], k, t);
    }
  }

  /** In every session a worker claims only while it has no coroutine in charge there. */
  predicate SystemClaimsAlone(sys: System, e: SystemEvent) {
    e.In? && e.session < |sys.sessions| ==> ClaimsAlone(sys.sessions[e.session], e.event)
  }

  predicate SystemRunClaimsAlone(quota: Quota, sys: System, es: seq<SystemEvent>)
    decreases |es|
  {
    es != [] ==> SystemClaimsAlone(sys, es[0]) && SystemRunClaimsAlone(quota, SystemNext(quota, sys, es[0]), es[1..])
  }

  ghost predicate QuotaInv(quota: Quota, sys: System) {
    && (forall i :: 0 <= i < |sys.sessions| ==> Inv(sys.sessions[i]))
    && LiveRows(Rows(sys.sessions)) <= quota.maxSessions
    && KeysDiffer(sys.sessions)
  }

  lemma KeysKept(s: Session, e: Event)
    ensures Next(s, e).db.row.key == s.db.row.key && Next(s, e).db.row.hash == s.db.row.hash
  {
    if e.Retire? {
    } else if e.Poll? || e.Claim? || e.Internal? || e.Act? || e.ActRaises? {
      KeysKeptEarly(s, e);
    } else {
      KeysKeptLate(s, e);
    }
  }

  lemma KeysKeptEarly(s: Session, e: Event)
    requires e.Poll? || e.Claim? || e.Internal? || e.Act? || e.ActRaises?
    ensures Next(s, e).db.row.key == s.db.row.key && Next(s, e).db.row.hash == s.db.row.hash
  {
  }

  lemma KeysKeptLate(s: Session, e: Event)
    requires !(e.Poll? || e.Claim? || e.Internal? || e.Act? || e.ActRaises?)
    ensures Next(s, e).db.row.key == s.db.row.key && Next(s, e).db.row.hash == s.db.row.hash
  {
  }

  lemma QuotaCreate(quota: Quota, sys: System, q: NewSession, found: bool)
    requires QuotaInv(quota, sys)
    ensures QuotaInv(quota, CreateNext(quota, sys, q, found))
  {
    FreshInv(q);
    var rows := Rows(sys.sessions);
    assert Rows(sys.sessions + [Fresh(q)]) == rows + [FreshSession(q)];
    assert (rows + [FreshSession(q)])[..|rows|] == rows;
    if CreateNext(quota, sys, q, found) != sys {
      forall j | 0 <= j < |sys.sessions| ensures sys.sessions[j].db.row.key != q.key {
        assert rows[j].row.key != q.key;
      }
    }
  }

  lemma QuotaMove(quota: Quota, sys: System, i: nat, t: Session, owner: Owner)
    requires QuotaInv(quota, sys) && i < |sys.sessions| && Inv(t)
    requires t.db.row.key == sys.sessions[i].db.row.key
    requires Terminal(sys.sessions[i].db.row.state) ==> Terminal(t.db.row.state)
    ensures QuotaInv(quota, System(owner, sys.sessions[i := t]))
  {
    LiveUpdate(Rows(sys.sessions), i, t.db);
    assert Rows(sys.sessions[i := t]) == Rows(sys.sessions)[i := t.db];
  }

  lemma QuotaStep(quota: Quota, sys: System, e: SystemEvent)
    requires QuotaInv(quota, sys) && SystemClaimsAlone(sys, e)
    ensures QuotaInv(quota, SystemNext(quota, sys, e))
  {
    match e
    case Create(q, found) => QuotaCreate(quota, sys, q, found);
    case In(i, event) =>
      if i < |sys.sessions| {
        var s := sys.sessions[i];
        var t := Next(s, event);
        assert Inv(s);
        InvStep(s, event);
        KeysKept(s, event);
        if Terminal(s.db.row.state) {
          TerminalStays(s, event);
        }
        QuotaMove(quota, sys, i, t, Settle(sys.owner, s.db, t.db));
      }
  }

  lemma TerminalStays(s: Session, e: Event)
    requires Inv(s) && Terminal(s.db.row.state) && ClaimsAlone(s, e)
    ensures Terminal(Next(s, e).db.row.state)
  {
    assert [e][1..] == [] && Run(s, [e]) == Run(Next(s, e), []);
    EndedStays(s, [e]);
  }

  lemma {:induction false} QuotaKept(quota: Quota, sys: System, es: seq<SystemEvent>)
    requires QuotaInv(quota, sys) && SystemRunClaimsAlone(quota, sys, es)
    ensures QuotaInv(quota, SystemRun(quota, sys, es))
    decreases |es|
  {
    if es != [] {
      QuotaStep(quota, sys, es[0]);
      QuotaKept(quota, SystemNext(quota, sys, es[0]), es[1..]);
    }
  }

  /**
   In every run in which workers claim alone the sessions that have not ended stay within the quota,
   every session keeps its own invariant, and a session's reservation is released exactly when its
   state is terminal.
   */
  lemma QuotaRun(quota: Quota, es: seq<SystemEvent>)
    requires SystemRunClaimsAlone(quota, Start(), es)
    ensures QuotaInv(quota, SystemRun(quota, Start(), es))
    ensures
      var t := SystemRun(quota, Start(), es);
      forall i :: 0 <= i < |t.sessions| ==> (Terminal(t.sessions[i].db.row.state) <==> t.sessions[i].db.row.released)
  {
    QuotaKept(quota, Start(), es);
  }

  // ---------------------------------------------------------------- reservations under the quota, in every run

  function Unreleased(rows: seq<Durable>): nat {
    if rows == [] then 0
    else Unreleased(rows[..|rows| - 1]) + (if rows[|rows| - 1].row.released then 0 else 1)
  }

  /** Ending a session and releasing it is one transaction; nothing takes a release back. */
  predicate EndedIsReleased(d: Durable) {
    Terminal(d.row.state) ==> d.row.released
  }

  lemma ReleaseRetires(s: Session, i: nat)
    requires EndedIsReleased(s.db)
    ensures
      var t := RetireNext(s, i).db;
      EndedIsReleased(t) && (s.db.row.released ==> t.row.released)
  {
  }

  lemma ReleaseKept(s: Session, e: Event)
    requires PcsShaped(s) && EndedIsReleased(s.db) && !e.Retire?
    ensures
      var t := Next(s, e).db;
      EndedIsReleased(t) && t.row.released == s.db.row.released
  {
  }

  lemma {:induction false} UnreleasedUpdate(rows: seq<Durable>, k: nat, t: Durable)
    requires k < |rows| && (rows[k].row.released ==> t.row.released)
    ensures Unreleased(rows[k := t]) <= Unreleased(rows)
  {
    var n := |rows| - 1;
    if k == n {
      assert rows[k := t][..n] == rows[..n];
    } else {
      assert rows[k := t][..n] == rows[..n][k := t];
      UnreleasedUpdate(rows[..n], k, t);
    }
  }

  lemma {:induction false} UnreleasedAreLive(rows: seq<Durable>)
    requires forall i :: 0 <= i < |rows| ==> EndedIsReleased(rows[i])
    ensures Unreleased(rows) <= LiveRows(rows)
  {
    if rows != [] {
      UnreleasedAreLive(rows[..|rows| - 1]);
    }
  }

  predicate ReservedInv(quota: Quota, sys: System) {
    && (forall i :: 0 <= i < |sys.sessions| ==> PcsShaped(sys.sessions[i]) && EndedIsReleased(sys.sessions[i].db))
    && Unreleased(Rows(sys.sessions)) <= quota.maxSessions
    && KeysDiffer(sys.sessions)
  }

  lemma ReservedCreate(quota: Quota, sys: System, q: NewSession, found: bool)
    requires ReservedInv(quota, sys)
    ensures ReservedInv(quota, CreateNext(quota, sys, q, found))
  {
    var rows := Rows(sys.sessions);
    assert Rows(sys.sessions + [Fresh(q)]) == rows + [FreshSession(q)];
    assert (rows + [FreshSession(q)])[..|rows|] == rows;
    if CreateNext(quota, sys, q, found) != sys {
      UnreleasedAreLive(rows);
      forall j | 0 <= j < |sys.sessions| ensures sys.sessions[j].db.row.key != q.key {
        assert rows[j].row.key != q.key;
      }
    }
  }

  lemma ReservedMove(quota: Quota, sys: System, i: nat, e: Event)
    requires ReservedInv(quota, sys) && i < |sys.sessions|
    ensures ReservedInv(quota, SystemNext(quota, sys, In(i, e)))
  {
    var s := sys.sessions[i];
    var t := Next(s, e);
    PcsStep(s, e);
    KeysKept(s, e);
    if e.Retire? {
      ReleaseRetires(s, e.i);
    } else {
      ReleaseKept(s, e);
    }
    UnreleasedUpdate(Rows(sys.sessions), i, t.db);
    assert Rows(sys.sessions[i := t]) == Rows(sys.sessions)[i := t.db];
  }

  lemma {:induction false} ReservedKept(quota: Quota, sys: System, es: seq<SystemEvent>)
    requires ReservedInv(quota, sys)
    ensures ReservedInv(quota, SystemRun(quota, sys, es))
    decreases |es|
  {
    if es != [] {
      match es[0] {
        case Create(q, found) => ReservedCreate(quota, sys, q, found);
        case In(i, event) =>
          if i < |sys.sessions| {
            ReservedMove(quota, sys, i, event);
          }
      }
      ReservedKept(quota, SystemNext(quota, sys, es[0]), es[1..]);
    }
  }

  /**
   In every run, whatever the workers do: request keys are distinct, a terminal session is released,
   and the sessions that still hold a reservation are within the quota.
   */
  lemma ReservedWithinQuota(quota: Quota, es: seq<SystemEvent>)
    ensures
      var t := SystemRun(quota, Start(), es);
      && KeysDiffer(t.sessions)
      && Unreleased(Rows(t.sessions)) <= quota.maxSessions
      && forall i :: 0 <= i < |t.sessions| ==> (Terminal(t.sessions[i].db.row.state) ==> t.sessions[i].db.row.released)
  {
    ReservedKept(quota, Start(), es);
  }

  // ---------------------------------------------------------------- what a creation answers

  predicate AtWork(d: Durable) {
    d.row.state in {Queued, Ready, Active, EpisodeDone}
  }

  /** The sessions that count against the quota. */
  lemma {:induction false} LiveRowsAreAtWork(rows: seq<Durable>)
    ensures LiveRows(rows) == |set i | 0 <= i < |rows| && AtWork(rows[i])|
  {
    var now := set i | 0 <= i < |rows| && AtWork(rows[i]);
    if rows == [] {
      assert now == {};
    } else {
      var n := |rows| - 1;
      var before := set i | 0 <= i < n && AtWork(rows[..n][i]);
      LiveRowsAreAtWork(rows[..n]);
      AtWorkIsLive(rows[n]);
      assert now == if AtWork(rows[n]) then before + {n} else before;
    }
  }

  lemma AtWorkIsLive(d: Durable)
    ensures AtWork(d) <==> !Terminal(d.row.state)
  {
    match d.row.state
    case Queued =>
    case Ready =>
    case Active =>
    case EpisodeDone =>
    case _ =>
  }

  /** A key that was seen gets its session back or a conflict; each refusal of a new one by its own condition. */
  predicate CreateMeans(quota: Quota, owner: Owner, rows: seq<Durable>, q: NewSession, found: bool, reply: CreateReply) {
    if exists i :: 0 <= i < |rows| && rows[i].row.key == q.key then
      forall i :: 0 <= i < |rows| && rows[i].row.key == q.key ==>
        reply == if rows[i].row.hash == q.hash then SameRequest(i) else RequestConflict
    else
      var room := |set i | 0 <= i < |rows| && AtWork(rows[i])| < quota.maxSessions;
      var covered := owner.spent + owner.reserved + q.maxCost <= quota.costLimit;
      && (reply == SessionQuota <==> !room)
      && (reply == CostQuota <==> room && !covered)
      && (reply == UnknownReference <==> room && covered && !found)
      && (reply == Created(|rows|) <==> room && covered && found)
  }

  predicate RowKeysDiffer(rows: seq<Durable>) {
    forall i, j :: 0 <= i < j < |rows| ==> rows[i].row.key != rows[j].row.key
  }

  lemma CreateAnswers(quota: Quota, owner: Owner, rows: seq<Durable>, q: NewSession, found: bool)
    requires RowKeysDiffer(rows)
    ensures CreateMeans(quota, owner, rows, q, found, CreateOutcome(quota, owner, rows, q, found))
  {
    LiveRowsAreAtWork(rows);
  }

  lemma {:induction false} SessionsStay(quota: Quota, sys: System, es: seq<SystemEvent>, k: nat)
    requires k < |sys.sessions|
    ensures
      var t := SystemRun(quota, sys, es);
      && k < |t.sessions| && t.sessions[k].db.row.key == sys.sessions[k].db.row.key
      && t.sessions[k].db.row.hash == sys.sessions[k].db.row.hash
    decreases |es|
  {
    if es != [] {
      if es[0].In? && es[0].session == k {
        KeysKept(sys.sessions[k], es[0].event);
      }
      SessionsStay(quota, SystemNext(quota, sys, es[0]), es[1..], k);
    }
  }

  /**
   A creation that was accepted once is answered with its session ever after, whatever happens in between; the same key
   with other content is a conflict ever after.
   */
  lemma CreateIsIdempotent(quota: Quota, sys: System, q: NewSession, es: seq<SystemEvent>, other: NewSession, found: bool)
    requires ReservedInv(quota, sys) && q.maxCost >= 0.0
    requires CreateOutcome(quota, sys.owner, Rows(sys.sessions), q, true).Created?
    requires other.key == q.key && other.hash != q.hash
    ensures
      var t := SystemRun(quota, SystemNext(quota, sys, Create(q, true)), es);
      && CreateOutcome(quota, t.owner, Rows(t.sessions), q, found) == SameRequest(|sys.sessions|)
      && CreateOutcome(quota, t.owner, Rows(t.sessions), other, found) == RequestConflict
      && SystemNext(quota, t, Create(q, found)) == t == SystemNext(quota, t, Create(other, found))
  {
    var k := |sys.sessions|;
    var made := SystemNext(quota, sys, Create(q, true));
    ReservedCreate(quota, sys, q, true);
    SessionsStay(quota, made, es, k);
    ReservedKept(quota, made, es);
    var t := SystemRun(quota, made, es);
    assert Rows(t.sessions)[k].row.key == q.key && Rows(t.sessions)[k].row.hash == q.hash;
    CreateAnswers(quota, t.owner, Rows(t.sessions), q, found);
    CreateAnswers(quota, t.owner, Rows(t.sessions), other, found);
  }
}
