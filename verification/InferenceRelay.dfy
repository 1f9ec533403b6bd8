/**
 Mailbox, relay and broker together. Any message between the relay and the gateway may be
 lost before or after it took effect, posts are repeated, and the provider's call can end in
 any way; what the mailbox bills still covers what the broker charged.
 */
module InferenceRelay {
  import opened Prelude
  import opened InferenceContracts
  import B = InferenceBroker
  import M = InferenceMailbox

  datatype Relay =
    | Polling(failures: nat)
    | Holding(work: Work)
    | Calling(work: Work)
    | Posting(result: Result, attempt: nat)
    | Broken
    | Stopped

  datatype Metering = Metering(mailbox: M.Mailbox, broker: B.Broker, relay: Relay)

  datatype Event =
    | Submit(work: Work)
    | QueueTimeout(i: nat)
    | Poll
    | PollMissing
    | PollLost(applied: bool)
    | PollError(applied: bool)
    | Call
    | CallEnds(outcome: B.Outcome)
    | Post(applied: bool, acknowledged: bool)
    | ReportFailure(applied: bool)
    | CancelRelay
    | RemoveEpisode
    | CloseMailbox

  /** Where a call that has begun leads the relay. */
  function Begun(s: Metering, b: B.Broker, reply: B.BeginReply): Metering
    requires s.relay.Holding?
  {
    match reply
    case Stored(r) => s.(relay := Posting(r, 0))
    case Refused(r) => s.(broker := b, relay := Posting(r, 0))
    case Dispatched => s.(broker := b, relay := Calling(s.relay.work))
    case _ => s.(relay := Broken)
  }

  function CallNext(p: Profile, s: Metering): Metering {
    if !s.relay.Holding? || s.broker.inflight.Some? then s
    else
      var (b, reply) := B.BeginCall(p, s.broker, s.relay.work);
      Begun(s, b, reply)
  }

  function Ended(s: Metering, b: B.Broker, r: Result, cancelled: bool): Metering {
    s.(broker := b, relay := if cancelled then Stopped else Posting(r, 0))
  }

  function CallEndsNext(p: Profile, s: Metering, o: B.Outcome): Metering {
    if !s.relay.Calling? || s.broker.inflight.None? then s
    else if o.Escapes? then s.(broker := B.FinishCall(p, s.broker, o), relay := Broken)
    else Ended(s, B.FinishCall(p, s.broker, o), B.ResultOf(p, s.broker.inflight.value, o), o.CallCancelled?)
  }

  function PostNext(s: Metering, applied: bool, acknowledged: bool): Metering {
    if !s.relay.Posting? then s
    else
      var (m, reply) := M.CompleteTx(s.mailbox, s.relay.result);
      var accepted := applied && acknowledged && (reply.Recorded? || reply.Repeated?);
      var relay := if accepted then Polling(0)
                   else if s.relay.attempt >= 2 then Broken
                   else Posting(s.relay.result, s.relay.attempt + 1);
      s.(mailbox := if applied then m else s.mailbox, relay := relay)
  }

  function PollNext(s: Metering): Metering {
    if !s.relay.Polling? then s
    else
      var (m, w) := M.ClaimTx(s.mailbox);
      s.(mailbox := m, relay := if w.Some? then Holding(w.value) else Polling(0))
  }

  function PollLostNext(s: Metering, applied: bool): Metering {
    if !s.relay.Polling? then s
    else
      var failures := s.relay.failures + 1;
      s.(mailbox := if applied then M.ClaimTx(s.mailbox).0 else s.mailbox,
         relay := if failures >= 100 then Broken else Polling(failures))
  }

  /** A claim that is answered by an error status breaks the relay, whether or not it took effect. */
  function PollErrorNext(s: Metering, applied: bool): Metering {
    if !s.relay.Polling? then s
    else s.(mailbox := if applied then M.ClaimTx(s.mailbox).0 else s.mailbox, relay := Broken)
  }

  function Next(p: Profile, s: Metering, e: Event): Metering {
    match e
    case Submit(w) => s.(mailbox := M.SubmitTx(p, s.mailbox, w).0)
    case QueueTimeout(i) => s.(mailbox := M.QueueTimeoutTx(p, s.mailbox, i))
    case Poll => PollNext(s)
    case PollMissing => if s.relay.Polling? then s.(relay := Polling(0)) else s
    case PollLost(applied) => PollLostNext(s, applied)
    case PollError(applied) => PollErrorNext(s, applied)
    case Call => CallNext(p, s)
    case CallEnds(o) => CallEndsNext(p, s, o)
    case Post(applied, acknowledged) => PostNext(s, applied, acknowledged)
    case ReportFailure(applied) =>
      if s.relay.Broken?
      then s.(mailbox := if applied then M.FailPendingTx(p, s.mailbox) else s.mailbox, relay := Stopped)
      else s
    case CancelRelay => if s.relay.Calling? then s else s.(relay := Stopped)
    case RemoveEpisode => s.(broker := s.broker.(closed := true))
    case CloseMailbox => s.(mailbox := M.CloseTx(s.mailbox))
  }

  function Run(p: Profile, s: Metering, es: seq<Event>): Metering
    decreases |es|
  {
    if es == [] then s else Run(p, Next(p, s, es[0]), es[1..])
  }

  function Start(): Metering {
    Metering(M.Mailbox([], [], false, []), B.Opened(), Polling(0))
  }

  // ---------------------------------------------------------------- invariant

  /** The work came out of the mailbox, where it is marked as claimed. */
  predicate Claimed(m: M.Mailbox, w: Work) {
    var i := M.Find(m.requests, w.id);
    i.Some? && m.requests[i.value].work == w && m.requests[i.value].claimed
  }

  predicate RelayOk(s: Metering) {
    match s.relay
    case Holding(w) => Claimed(s.mailbox, w) && s.broker.inflight.None?
    case Calling(w) => s.broker.inflight == Some(w)
    case Posting(r, _) =>
      s.broker.inflight.None? &&
      (var i := B.Lookup(s.broker.entries, r.audit.id); i.Some? && s.broker.entries[i.value].result == r)
    case _ => s.broker.inflight.None?
  }

  /** A settled request holds the broker's result, or a failure billed by whether it was claimed. */
  predicate SettledOk(p: Profile, b: B.Broker, q: M.Pending) {
    q.future.Done? ==>
      var r := q.future.result;
      var i := B.Lookup(b.entries, q.work.id);
      r == M.Failure(p, q, r.audit.code) || (q.claimed && i.Some? && b.entries[i.value].result == r)
  }

  /** At most one call leaked: the relay broke on it, so its request was not called again. */
  predicate LeakOk(s: Metering) {
    s.broker.leaked != [] ==>
      && |s.broker.leaked| == 1
      && s.broker.inflight.None? && (s.relay.Broken? || s.relay.Stopped?)
      && Claimed(s.mailbox, s.broker.leaked[0])
      && B.Lookup(s.broker.entries, s.broker.leaked[0].id).None?
  }

  ghost predicate MeteringInv(p: Profile, s: Metering) {
    && B.BrokerInv(p, s.broker)
    && M.MailboxInv(p, s.mailbox)
    && RelayOk(s)
    && LeakOk(s)
    && (forall k :: 0 <= k < |s.broker.entries| ==> Claimed(s.mailbox, s.broker.entries[k].work))
    && (s.broker.inflight.Some? ==> Claimed(s.mailbox, s.broker.inflight.value))
    && (forall i :: 0 <= i < |s.mailbox.requests| ==> SettledOk(p, s.broker, s.mailbox.requests[i]))
  }

  /** Requests keep their place and work; claims are never taken back, settlements never change. */
  predicate MailboxGrows(m: M.Mailbox, n: M.Mailbox) {
    && |m.requests| <= |n.requests|
    && forall i :: 0 <= i < |m.requests| ==>
         && n.requests[i].work == m.requests[i].work
         && (m.requests[i].claimed ==> n.requests[i].claimed)
         && (m.requests[i].future.Done? ==> n.requests[i] == m.requests[i])
  }

  lemma ClaimedStays(p: Profile, m: M.Mailbox, n: M.Mailbox, w: Work)
    requires M.MailboxInv(p, n) && MailboxGrows(m, n) && Claimed(m, w)
    ensures Claimed(n, w)
  {
    var i := M.Find(m.requests, w.id).value;
    M.FindIs(n.requests, i);
  }

  lemma MailboxMoves(p: Profile, s: Metering, n: M.Mailbox)
    requires MeteringInv(p, s) && M.MailboxInv(p, n) && MailboxGrows(s.mailbox, n)
    requires forall i :: 0 <= i < |n.requests| ==> SettledOk(p, s.broker, n.requests[i])
    ensures MeteringInv(p, s.(mailbox := n))
  {
    forall w: Work | Claimed(s.mailbox, w) ensures Claimed(n, w) {
      ClaimedStays(p, s.mailbox, n, w);
    }
  }

  lemma FailGrows(p: Profile, b: B.Broker, m: M.Mailbox, i: nat, code: nat)
    requires M.MailboxInv(p, m) && i < |m.requests|
    requires forall j :: 0 <= j < |m.requests| ==> SettledOk(p, b, m.requests[j])
    ensures
      var n := M.FailTx(p, m, i, code);
      M.MailboxInv(p, n) && MailboxGrows(m, n) && forall j :: 0 <= j < |n.requests| ==> SettledOk(p, b, n.requests[j])
  {
    if m.requests[i].future.Waiting? {
      var r := M.Failure(p, m.requests[i], code);
      M.CompleteKeeps(p, m, r);
      M.FindIs(m.requests, i);
      var n := M.FailTx(p, m, i, code);
      assert M.Failure(p, n.requests[i], code) == r;
    }
  }

  lemma {:induction false} FailFromGrows(p: Profile, b: B.Broker, m: M.Mailbox, i: nat, code: nat)
    requires M.MailboxInv(p, m)
    requires forall j :: 0 <= j < |m.requests| ==> SettledOk(p, b, m.requests[j])
    ensures
      var n := M.FailFrom(p, m, i, code);
      M.MailboxInv(p, n) && MailboxGrows(m, n) && forall j :: 0 <= j < |n.requests| ==> SettledOk(p, b, n.requests[j])
    decreases |m.requests| - i
  {
    if i < |m.requests| {
      FailGrows(p, b, m, i, code);
      FailFromGrows(p, b, M.FailTx(p, m, i, code), i + 1, code);
    }
  }

  lemma SubmitStep(p: Profile, s: Metering, w: Work)
    requires MeteringInv(p, s)
    ensures MeteringInv(p, s.(mailbox := M.SubmitTx(p, s.mailbox, w).0))
  {
    M.SubmitKeeps(p, s.mailbox, w);
    MailboxMoves(p, s, M.SubmitTx(p, s.mailbox, w).0);
  }

  /** Claiming changes only a waiting request, so no settlement loses its justification. */
  lemma ClaimStep(p: Profile, s: Metering)
    requires MeteringInv(p, s)
    ensures
      var (n, w) := M.ClaimTx(s.mailbox);
      MeteringInv(p, s.(mailbox := n)) && (w.Some? ==> Claimed(n, w.value))
  {
    var (n, w) := M.ClaimTx(s.mailbox);
    M.ClaimKeeps(p, s.mailbox);
    MailboxMoves(p, s, n);
    if w.Some? {
      M.FindIs(n.requests, M.FirstClaimable(s.mailbox.requests).value);
    }
  }

  /** A post that is recorded settles its request with the broker's own result. */
  lemma PostSettles(p: Profile, b: B.Broker, m: M.Mailbox, r: Result)
    requires forall j :: 0 <= j < |m.requests| ==> SettledOk(p, b, m.requests[j])
    requires B.Lookup(b.entries, r.audit.id).Some? && b.entries[B.Lookup(b.entries, r.audit.id).value].result == r
    requires M.CompleteTx(m, r).1.Recorded? ==> m.requests[M.Find(m.requests, r.audit.id).value].claimed
    ensures var n := M.CompleteTx(m, r).0; forall j :: 0 <= j < |n.requests| ==> SettledOk(p, b, n.requests[j])
  {
    var (n, reply) := M.CompleteTx(m, r);
    if reply.Recorded? {
      var i := M.Find(m.requests, r.audit.id).value;
      assert SettledOk(p, b, n.requests[i]);
    }
  }

  /** What the relay posts is the result of a claimed request. */
  lemma PostedIsClaimed(p: Profile, s: Metering)
    requires MeteringInv(p, s) && s.relay.Posting?
    ensures
      var r := s.relay.result;
      var k := B.Lookup(s.broker.entries, r.audit.id);
      var i := M.Find(s.mailbox.requests, r.audit.id);
      && k.Some? && s.broker.entries[k.value].result == r
      && i.Some? && s.mailbox.requests[i.value].claimed
  {
    var k := B.Lookup(s.broker.entries, s.relay.result.audit.id).value;
    assert Claimed(s.mailbox, s.broker.entries[k].work);
  }

  lemma PostStep(p: Profile, s: Metering)
    requires MeteringInv(p, s) && s.relay.Posting?
    ensures MeteringInv(p, s.(mailbox := M.CompleteTx(s.mailbox, s.relay.result).0))
  {
    var r := s.relay.result;
    PostedIsClaimed(p, s);
    M.CompleteKeeps(p, s.mailbox, r);
    PostSettles(p, s.broker, s.mailbox, r);
    CompleteGrows(s.mailbox, r);
    MailboxMoves(p, s, M.CompleteTx(s.mailbox, r).0);
  }

  lemma CompleteGrows(m: M.Mailbox, r: Result)
    ensures MailboxGrows(m, M.CompleteTx(m, r).0)
  {
  }

  lemma CloseStep(p: Profile, s: Metering)
    requires MeteringInv(p, s)
    ensures MeteringInv(p, s.(mailbox := M.CloseTx(s.mailbox)))
  {
    M.CloseKeeps(p, s.mailbox);
    forall i | 0 <= i < |s.mailbox.requests| ensures SettledOk(p, s.broker, M.CloseTx(s.mailbox).requests[i]) {
      assert SettledOk(p, s.broker, s.mailbox.requests[i]);
    }
    MailboxMoves(p, s, M.CloseTx(s.mailbox));
  }

  lemma LookupStays(es: seq<B.Entry>, e: B.Entry, id: nat)
    requires B.Lookup(es, id).Some? && e.work.id != id
    ensures B.Lookup(es + [e], id) == B.Lookup(es, id)
  {
    assert (es + [e])[..|es|] == es;
  }

  /** A new entry for a claimed request justifies the relay's post and disturbs no settlement. */
  lemma NewEntry(p: Profile, s: Metering, t: B.Broker, e: B.Entry)
    requires MeteringInv(p, s) && B.BrokerInv(p, t)
    requires t.entries == s.broker.entries + [e] && t.inflight.None? && t.leaked == s.broker.leaked == []
    requires Claimed(s.mailbox, e.work) && B.Lookup(s.broker.entries, e.work.id).None? && e.result.audit.id == e.work.id
    ensures MeteringInv(p, Metering(s.mailbox, t, Posting(e.result, 0)))
    ensures MeteringInv(p, Metering(s.mailbox, t, Stopped))
  {
    assert (s.broker.entries + [e])[..|s.broker.entries|] == s.broker.entries;
    assert B.Lookup(t.entries, e.work.id) == Some(|s.broker.entries|);
    forall i | 0 <= i < |s.mailbox.requests| ensures SettledOk(p, t, s.mailbox.requests[i]) {
      var q := s.mailbox.requests[i];
      assert SettledOk(p, s.broker, q);
      if q.future.Done? && B.Lookup(s.broker.entries, q.work.id).Some? {
        LookupStays(s.broker.entries, e, q.work.id);
      }
    }
  }

  /** The relay may stop, break or poll again whenever no call is running. */
  lemma RelayRests(p: Profile, s: Metering, relay: Relay)
    requires MeteringInv(p, s) && s.broker.inflight.None?
    requires relay.Broken? || relay.Stopped? || (relay.Polling? && s.broker.leaked == [])
    ensures MeteringInv(p, s.(relay := relay))
  {
  }

  lemma AnswerKnown(p: Profile, s: Metering, i: nat)
    requires MeteringInv(p, s) && s.broker.inflight.None? && s.broker.leaked == [] && i < |s.broker.entries|
    requires B.Lookup(s.broker.entries, s.broker.entries[i].work.id) == Some(i)
    requires s.broker.entries[i].result.audit.id == s.broker.entries[i].work.id
    ensures MeteringInv(p, s.(relay := Posting(s.broker.entries[i].result, 0)))
  {
  }

  lemma CallBegun(p: Profile, s: Metering, t: B.Broker, w: Work)
    requires MeteringInv(p, s) && s.relay == Holding(w) && B.BrokerInv(p, t)
    requires t.entries == s.broker.entries && t.inflight == Some(w) && t.leaked == s.broker.leaked
    ensures MeteringInv(p, Metering(s.mailbox, t, Calling(w)))
  {
    forall i | 0 <= i < |s.mailbox.requests| ensures SettledOk(p, t, s.mailbox.requests[i]) {
      assert SettledOk(p, s.broker, s.mailbox.requests[i]);
    }
  }

  lemma BegunKeeps(p: Profile, s: Metering, t: B.Broker, reply: B.BeginReply)
    requires MeteringInv(p, s) && s.relay.Holding? && B.BrokerInv(p, t)
    requires B.BeginShape(s.broker, s.relay.work, t, reply)
    ensures MeteringInv(p, Begun(s, t, reply))
  {
    var w := s.relay.work;
    match reply {
      case Refused(r) => NewEntry(p, s, t, B.Entry(w, r, false));
      case Dispatched => CallBegun(p, s, t, w);
      case Stored(r) => AnswerKnown(p, s, B.Lookup(s.broker.entries, w.id).value);
      case _ => RelayRests(p, s, Broken);
    }
  }

  lemma CallStep(p: Profile, s: Metering)
    requires MeteringInv(p, s)
    ensures MeteringInv(p, CallNext(p, s))
  {
    if s.relay.Holding? {
      var (b, reply) := B.BeginCall(p, s.broker, s.relay.work);
      B.BeginIs(p, s.broker, s.relay.work);
      BegunKeeps(p, s, b, reply);
    }
  }

  lemma EndedKeeps(p: Profile, s: Metering, t: B.Broker, r: Result, cancelled: bool)
    requires MeteringInv(p, s) && s.relay.Calling? && s.broker.inflight.Some? && B.BrokerInv(p, t)
    requires t.entries == s.broker.entries + [B.Entry(s.broker.inflight.value, r, true)] && t.inflight.None?
    requires t.leaked == s.broker.leaked
    requires r.audit.id == s.broker.inflight.value.id
    ensures MeteringInv(p, Ended(s, t, r, cancelled))
  {
    NewEntry(p, s, t, B.Entry(s.broker.inflight.value, r, true));
  }

  lemma EscapedKeeps(p: Profile, s: Metering)
    requires MeteringInv(p, s) && s.relay.Calling? && s.broker.inflight.Some?
    ensures MeteringInv(p, s.(broker := B.FinishCall(p, s.broker, B.Escapes), relay := Broken))
  {
    var t := B.FinishCall(p, s.broker, B.Escapes);
    B.EscapeKeeps(p, s.broker);
    forall i | 0 <= i < |s.mailbox.requests| ensures SettledOk(p, t, s.mailbox.requests[i]) {
      assert SettledOk(p, s.broker, s.mailbox.requests[i]);
    }
  }

  lemma CallEndsStep(p: Profile, s: Metering, o: B.Outcome)
    requires ValidProfile(p) && MeteringInv(p, s)
    ensures MeteringInv(p, CallEndsNext(p, s, o))
  {
    if s.relay.Calling? && s.broker.inflight.Some? {
      if o.Escapes? {
        EscapedKeeps(p, s);
        return;
      }
      var w := s.broker.inflight.value;
      var t, r := B.FinishCall(p, s.broker, o), B.ResultOf(p, w, o);
      B.FinishKeeps(p, s.broker, o);
      B.ResultIs(p, w, o);
      EndedKeeps(p, s, t, r, o.CallCancelled?);
    }
  }

  lemma PollSteps(p: Profile, s: Metering, applied: bool)
    requires MeteringInv(p, s)
    ensures MeteringInv(p, PollNext(s)) && MeteringInv(p, PollLostNext(s, applied))
    ensures MeteringInv(p, PollErrorNext(s, applied))
  {
    if s.relay.Polling? {
      ClaimStep(p, s);
    }
  }

  lemma PostNextStep(p: Profile, s: Metering, applied: bool, acknowledged: bool)
    requires MeteringInv(p, s)
    ensures MeteringInv(p, PostNext(s, applied, acknowledged))
  {
    if s.relay.Posting? {
      PostStep(p, s);
    }
  }

  lemma TimeoutStep(p: Profile, s: Metering, i: nat)
    requires MeteringInv(p, s)
    ensures MeteringInv(p, s.(mailbox := M.QueueTimeoutTx(p, s.mailbox, i)))
  {
    if i < |s.mailbox.requests| && !s.mailbox.requests[i].claimed {
      FailGrows(p, s.broker, s.mailbox, i, M.QUEUE_TIMEOUT);
      MailboxMoves(p, s, M.FailTx(p, s.mailbox, i, M.QUEUE_TIMEOUT));
    }
  }

  lemma FailureStep(p: Profile, s: Metering)
    requires MeteringInv(p, s)
    ensures MeteringInv(p, s.(mailbox := M.FailPendingTx(p, s.mailbox)))
  {
    var closed := s.mailbox.(closed := true);
    M.ShutKeeps(p, s.mailbox);
    MailboxMoves(p, s, closed);
    FailFromGrows(p, s.broker, closed, 0, M.RELAY_FAILED);
    MailboxMoves(p, s, M.FailPendingTx(p, s.mailbox));
  }

  /** The events of the relay's own loop. */
  predicate OfRelay(e: Event) {
    e.Poll? || e.PollMissing? || e.PollLost? || e.PollError? || e.Call? || e.CallEnds? || e.Post? || e.CancelRelay?
  }

  lemma RelayStep(p: Profile, s: Metering, e: Event)
    requires ValidProfile(p) && MeteringInv(p, s) && OfRelay(e)
    ensures MeteringInv(p, Next(p, s, e))
  {
    match e
    case Poll => PollSteps(p, s, false);
    case PollMissing => if s.relay.Polling? { RelayRests(p, s, Polling(0)); }
    case PollLost(applied) => PollSteps(p, s, applied);
    case PollError(applied) => PollSteps(p, s, applied);
    case Call => CallStep(p, s);
    case CallEnds(o) => CallEndsStep(p, s, o);
    case Post(applied, acknowledged) => PostNextStep(p, s, applied, acknowledged);
    case CancelRelay => if !s.relay.Calling? { RelayRests(p, s, Stopped); }
  }

  lemma ReportStep(p: Profile, s: Metering, applied: bool)
    requires MeteringInv(p, s)
    ensures MeteringInv(p, Next(p, s, ReportFailure(applied)))
  {
    if s.relay.Broken? {
      FailureStep(p, s);
      RelayRests(p, Next(p, s, ReportFailure(applied)).(relay := Broken), Stopped);
    }
  }

  lemma InvStep(p: Profile, s: Metering, e: Event)
    requires ValidProfile(p) && MeteringInv(p, s)
    ensures MeteringInv(p, Next(p, s, e))
  {
    if OfRelay(e) {
      RelayStep(p, s, e);
    } else {
      match e
      case Submit(w) => SubmitStep(p, s, w);
      case QueueTimeout(i) => TimeoutStep(p, s, i);
      case ReportFailure(applied) => ReportStep(p, s, applied);
      case RemoveEpisode => BrokerCloses(p, s);
      case CloseMailbox => CloseStep(p, s);
    }
  }

  lemma BrokerCloses(p: Profile, s: Metering)
    requires MeteringInv(p, s)
    ensures MeteringInv(p, s.(broker := s.broker.(closed := true)))
  {
    forall i | 0 <= i < |s.mailbox.requests|
      ensures SettledOk(p, s.broker.(closed := true), s.mailbox.requests[i])
    {
      assert SettledOk(p, s.broker, s.mailbox.requests[i]);
    }
  }

  lemma {:induction false} InvRun(p: Profile, s: Metering, es: seq<Event>)
    requires ValidProfile(p) && MeteringInv(p, s)
    ensures MeteringInv(p, Run(p, s, es))
    decreases |es|
  {
    if es != [] {
      InvStep(p, s, es[0]);
      InvRun(p, Next(p, s, es[0]), es[1..]);
    }
  }

  lemma StartInv(p: Profile)
    requires ValidProfile(p)
    ensures MeteringInv(p, Start())
  {
    B.OpenedInv(p);
  }

  // ---------------------------------------------------------------- what the audit guarantees

  /** The work whose reservation is still charged for this request: in flight, or leaked. */
  function ReservedFor(b: B.Broker, id: nat): Option<Work> {
    if b.inflight.Some? && b.inflight.value.id == id then b.inflight
    else if b.leaked != [] && b.leaked[0].id == id then Some(b.leaked[0])
    else None
  }

  /** What the broker has charged for a request so far: its stored result, or the reservation that stands. */
  function ChargedTokens(p: Profile, b: B.Broker, id: nat): nat {
    match B.Lookup(b.entries, id)
    case Some(i) => Tokens(b.entries[i].result)
    case None => if ReservedFor(b, id).Some? then ReserveTokens(p, ReservedFor(b, id).value) else 0
  }

  function ChargedCost(p: Profile, b: B.Broker, id: nat): real {
    match B.Lookup(b.entries, id)
    case Some(i) => b.entries[i].result.audit.cost
    case None => if ReservedFor(b, id).Some? then ReserveCost(p, ReservedFor(b, id).value) else 0.0
  }

  predicate UsageWithin(p: Profile, b: B.Broker) {
    forall k :: 0 <= k < |b.entries| && b.entries[k].dispatched ==>
      WithinReservation(p, b.entries[k].work, b.entries[k].result)
  }

  /** A settlement covers the charge for its own work. */
  lemma SettledCovers(p: Profile, b: B.Broker, q: M.Pending)
    requires ValidProfile(p) && UsageWithin(p, b) && q.future.Done? && SettledOk(p, b, q)
    requires B.Lookup(b.entries, q.work.id).Some? ==>
               var e := b.entries[B.Lookup(b.entries, q.work.id).value];
               q.claimed && e.work == q.work && B.EntryOk(p, e)
    requires ReservedFor(b, q.work.id).Some? ==> q.claimed && ReservedFor(b, q.work.id).value == q.work
    ensures Tokens(q.future.result) >= ChargedTokens(p, b, q.work.id)
    ensures q.future.result.audit.cost >= ChargedCost(p, b, q.work.id)
  {
    PriceMonotone(p, 0, 0, ReserveInput(q.work), p.maxOutput);
    if B.Lookup(b.entries, q.work.id).Some? {
      var e := b.entries[B.Lookup(b.entries, q.work.id).value];
      if e.dispatched {
        PriceMonotone(p, e.result.audit.input, e.result.audit.output, ReserveInput(q.work), p.maxOutput);
      }
    }
  }

  /**
   In every run, whatever messages are lost, repeated or failed: if reported usage stays within
   its reservation, the audit of every settled request bills at least what the broker charged.
   */
  lemma AuditCoversCharges(p: Profile, es: seq<Event>, s: Metering, i: nat)
    requires ValidProfile(p) && s == Run(p, Start(), es)
    requires i < |s.mailbox.requests| && s.mailbox.requests[i].future.Done?
    requires UsageWithin(p, s.broker)
    ensures
      var q := s.mailbox.requests[i];
      && Tokens(q.future.result) >= ChargedTokens(p, s.broker, q.work.id)
      && q.future.result.audit.cost >= ChargedCost(p, s.broker, q.work.id)
  {
    StartInv(p);
    InvRun(p, Start(), es);
    var q := s.mailbox.requests[i];
    M.FindIs(s.mailbox.requests, i);
    var k := B.Lookup(s.broker.entries, q.work.id);
    if k.Some? {
      assert Claimed(s.mailbox, s.broker.entries[k.value].work) && B.EntryOk(p, s.broker.entries[k.value]);
    }
    SettledCovers(p, s.broker, q);
  }

  /** What a settlement bills: the broker's stored result, or the mailbox's own failure, by whether it was claimed. */
  predicate BilledBy(p: Profile, b: B.Broker, q: M.Pending)
    requires q.future.Done?
  {
    var r, k := q.future.result, B.Lookup(b.entries, q.work.id);
    || (q.claimed && k.Some? && r == b.entries[k.value].result)
    || (q.claimed && Tokens(r) == ReserveTokens(p, q.work) > 0 && r.audit.cost == ReserveCost(p, q.work))
    || (!q.claimed && k.None? && Tokens(r) == 0 && r.audit.cost == 0.0)
  }

  lemma SettledBills(p: Profile, s: Metering, i: nat)
    requires MeteringInv(p, s) && i < |s.mailbox.requests| && s.mailbox.requests[i].future.Done?
    ensures BilledBy(p, s.broker, s.mailbox.requests[i])
  {
    var q := s.mailbox.requests[i];
    assert SettledOk(p, s.broker, q);
    assert Price(p, 0, 0) == 0.0;
    M.FindIs(s.mailbox.requests, i);
    var k := B.Lookup(s.broker.entries, q.work.id);
    if k.Some? {
      assert Claimed(s.mailbox, s.broker.entries[k.value].work);
    }
  }

  /**
   Claims hand out each request once; the audit trail is numbered 1..n, names each request at most
   once and agrees with its settlement. A settlement is the broker's stored result; or a failure of the
   mailbox, which bills the whole reservation when the work was claimed, whatever the broker stored,
   and nothing when it was never claimed.
   */
  lemma AuditTrail(p: Profile, es: seq<Event>, s: Metering)
    requires ValidProfile(p) && s == Run(p, Start(), es)
    ensures forall i, j :: 0 <= i < j < |s.mailbox.claims| ==> s.mailbox.claims[i] != s.mailbox.claims[j]
    ensures forall k :: 0 <= k < |s.mailbox.records| ==> s.mailbox.records[k].sequence == k + 1
    ensures M.RecordsDistinct(s.mailbox.records)
    ensures forall i :: 0 <= i < |s.mailbox.requests| && s.mailbox.requests[i].future.Done? ==>
              && M.HasRecord(s.mailbox, s.mailbox.requests[i].future.result.audit)
              && BilledBy(p, s.broker, s.mailbox.requests[i])
    ensures M.WaitingCount(s.mailbox.requests) <= 4 && |s.mailbox.requests| <= p.maxRequests
  {
    StartInv(p);
    InvRun(p, Start(), es);
    forall k | 0 <= k < |s.mailbox.records| ensures s.mailbox.records[k].sequence == k + 1 {
      assert M.RecordOk(s.mailbox, k);
    }
    forall i | 0 <= i < |s.mailbox.requests| && s.mailbox.requests[i].future.Done?
      ensures BilledBy(p, s.broker, s.mailbox.requests[i])
    {
      SettledBills(p, s, i);
    }
  }

  /** Through the relay nothing is dispatched twice, even when a call leaked. */
  lemma RelayDispatchesOnce(p: Profile, es: seq<Event>, s: Metering)
    requires ValidProfile(p) && s == Run(p, Start(), es)
    ensures B.Distinct(s.broker.dispatches) && |s.broker.leaked| <= 1
  {
    StartInv(p);
    InvRun(p, Start(), es);
    B.DistinctCounts(s.broker.dispatches);
    forall id: nat ensures multiset(s.broker.dispatches)[id] <= 1 {
      assert multiset(s.broker.dispatches)[id] == B.Accounted(s.broker, id);
      if s.broker.leaked != [] {
        assert B.LeakedIds(s.broker.leaked) == [s.broker.leaked[0].id];
      } else {
        assert B.LeakedIds(s.broker.leaked) == [];
      }
    }
  }

  // ---------------------------------------------------------------- requests submitted again

  lemma ClaimGrows(m: M.Mailbox)
    ensures MailboxGrows(m, M.ClaimTx(m).0)
  {
    M.ClaimAnswers(m);
  }

  lemma FailPendingGrows(p: Profile, m: M.Mailbox)
    requires M.MailboxInv(p, m)
    ensures MailboxGrows(m, M.FailPendingTx(p, m))
  {
    M.FailPendingAnswers(p, m);
  }

  lemma MailboxStep(p: Profile, s: Metering, e: Event)
    requires M.MailboxInv(p, s.mailbox)
    ensures MailboxGrows(s.mailbox, Next(p, s, e).mailbox)
  {
    match e
    case QueueTimeout(i) => TimeoutGrows(p, s.mailbox, i);
    case Post(applied, acknowledged) =>
      if s.relay.Posting? {
        CompleteGrows(s.mailbox, s.relay.result);
      }
    case ReportFailure(_) => FailPendingGrows(p, s.mailbox);
    case CloseMailbox => M.CloseAnswers(s.mailbox);
    case Poll => ClaimGrows(s.mailbox);
    case PollLost(_) => ClaimGrows(s.mailbox);
    case PollError(_) => ClaimGrows(s.mailbox);
    case CallEnds(o) => CallsLeaveMailbox(p, s, e);
    case Call => CallsLeaveMailbox(p, s, e);
    case _ =>
  }

  lemma TimeoutGrows(p: Profile, m: M.Mailbox, i: nat)
    requires M.MailboxInv(p, m)
    ensures MailboxGrows(m, M.QueueTimeoutTx(p, m, i))
  {
    M.QueueTimeoutAnswers(p, m, i);
  }

  lemma CallsLeaveMailbox(p: Profile, s: Metering, e: Event)
    requires e.Call? || e.CallEnds?
    ensures Next(p, s, e).mailbox == s.mailbox
  {
  }

  lemma {:induction false} MailboxRun(p: Profile, s: Metering, es: seq<Event>)
    requires ValidProfile(p) && MeteringInv(p, s)
    ensures MailboxGrows(s.mailbox, Run(p, s, es).mailbox)
    decreases |es|
  {
    if es != [] {
      MailboxStep(p, s, es[0]);
      InvStep(p, s, es[0]);
      MailboxRun(p, Next(p, s, es[0]), es[1..]);
    }
  }

  /**
   A request that was queued once is known ever after, until the mailbox closes, and submitting it again changes
   nothing; another one under its id is refused.
   */
  lemma SubmitIsIdempotent(p: Profile, s: Metering, w: Work, es: seq<Event>, other: Work)
    requires ValidProfile(p) && MeteringInv(p, s) && M.SubmitTx(p, s.mailbox, w).1.Queued?
    requires other.id == w.id && other.hash != w.hash && other.modelAllowed && other.size <= p.maxInputBytes
    ensures
      var m := Run(p, Next(p, s, Submit(w)), es).mailbox;
      && M.SubmitTx(p, m, w) == (m, if m.closed then M.Closed else M.Known(|s.mailbox.requests|))
      && M.SubmitTx(p, m, other) == (m, if m.closed then M.Closed else M.IdReused)
  {
    var k := |s.mailbox.requests|;
    var t := Next(p, s, Submit(w));
    M.SubmitAnswers(p, s.mailbox, w);
    assert t.mailbox.requests[k].work == w;
    InvStep(p, s, Submit(w));
    InvRun(p, t, es);
    MailboxRun(p, t, es);
    var m := Run(p, t, es).mailbox;
    assert m.requests[k].work == w;
    M.SubmitAnswers(p, m, w);
    M.SubmitAnswers(p, m, other);
  }
}
