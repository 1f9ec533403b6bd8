/**
 The gateway's bounded mailbox: requests wait here until the relay claims them, and every
 request is settled at most once, by the broker's result or by a failure of the mailbox itself.
 */
module InferenceMailbox {
  import opened Prelude
  import opened InferenceContracts

  datatype Future = Waiting | Done(result: Result) | Abandoned

  datatype Pending = Pending(work: Work, claimed: bool, future: Future)

  datatype Record = Record(sequence: nat, audit: Audit)

  /** `claims` lists the ids handed out by `claim`, in order. */
  datatype Mailbox = Mailbox(requests: seq<Pending>, records: seq<Record>, closed: bool, claims: seq<nat>)

  datatype SubmitReply = Closed | ModelOutside | InputLimit | IdReused | Known(index: nat)
    | BudgetExhausted | QueueFull | Queued(index: nat)

  datatype CompleteReply = Unknown | Mismatch | Conflict | Repeated | Recorded

  function Find(rs: seq<Pending>, id: nat): (r: Option<nat>)
    ensures r.Some? ==> r.value < |rs| && rs[r.value].work.id == id
    ensures r.None? ==> forall i :: 0 <= i < |rs| ==> rs[i].work.id != id
  {
    if rs == [] then None
    else
      var n := |rs| - 1;
      if rs[n].work.id == id then Some(n) else Find(rs[..n], id)
  }

  function WaitingCount(rs: seq<Pending>): nat {
    if rs == [] then 0
    else WaitingCount(rs[..|rs| - 1]) + (if rs[|rs| - 1].future.Waiting? then 1 else 0)
  }

  function SubmitTx(p: Profile, m: Mailbox, w: Work): (Mailbox, SubmitReply) {
    if m.closed then (m, Closed)
    else if !w.modelAllowed then (m, ModelOutside)
    else if w.size > p.maxInputBytes then (m, InputLimit)
    else
      match Find(m.requests, w.id)
      case Some(i) => (m, if m.requests[i].work.hash == w.hash then Known(i) else IdReused)
      case None =>
        if |m.requests| >= p.maxRequests then (m, BudgetExhausted)
        else if WaitingCount(m.requests) >= 4 then (m, QueueFull)
        else (m.(requests := m.requests + [Pending(w, false, Waiting)]), Queued(|m.requests|))
  }

  function CompleteTx(m: Mailbox, r: Result): (Mailbox, CompleteReply) {
    match Find(m.requests, r.audit.id)
    case None => (m, Unknown)
    case Some(i) =>
      var q := m.requests[i];
      if r.audit.hash != q.work.hash then (m, Mismatch)
      else if q.future.Abandoned? then (m, Conflict)
      else if q.future.Done? then (m, if q.future.result == r then Repeated else Conflict)
      else (m.(requests := m.requests[i := q.(future := Done(r))],
               records := m.records + [Record(|m.records| + 1, r.audit)]), Recorded)
  }

  /** A failure made up by the mailbox bills the whole reservation, or nothing if nobody claimed the work. */
  function Failure(p: Profile, q: Pending, code: nat): Result {
    var input := if q.claimed then ReserveInput(q.work) else 0;
    var output := if q.claimed then p.maxOutput else 0;
    Result(None, Audit(q.work.id, q.work.hash, Failed, code, input, output, Price(p, input, output),
                       if q.claimed then Reservation else NotDispatched))
  }

  function FailTx(p: Profile, m: Mailbox, i: nat, code: nat): Mailbox
    requires i < |m.requests|
  {
    if m.requests[i].future.Waiting? then CompleteTx(m, Failure(p, m.requests[i], code)).0 else m
  }

  function FailFrom(p: Profile, m: Mailbox, i: nat, code: nat): Mailbox
    decreases |m.requests| - i
  {
    if i < |m.requests| then FailFrom(p, FailTx(p, m, i, code), i + 1, code) else m
  }

  const QUEUE_TIMEOUT: nat := 10
  const RELAY_FAILED: nat := 11

  function FailPendingTx(p: Profile, m: Mailbox): Mailbox {
    FailFrom(p, m.(closed := true), 0, RELAY_FAILED)
  }

  /** A caller that gave up waiting fails its request only if nobody has claimed it. */
  function QueueTimeoutTx(p: Profile, m: Mailbox, i: nat): Mailbox {
    if i < |m.requests| && !m.requests[i].claimed then FailTx(p, m, i, QUEUE_TIMEOUT) else m
  }

  predicate Claimable(q: Pending) {
    !q.claimed && q.future.Waiting?
  }

  function FirstClaimable(rs: seq<Pending>): (r: Option<nat>)
    ensures r.Some? ==> r.value < |rs| && Claimable(rs[r.value])
    ensures r.Some? ==> forall i :: 0 <= i < r.value ==> !Claimable(rs[i])
    ensures r.None? ==> forall i :: 0 <= i < |rs| ==> !Claimable(rs[i])
  {
    if rs == [] then None
    else
      match FirstClaimable(rs[..|rs| - 1])
      case Some(i) => Some(i)
      case None => if Claimable(rs[|rs| - 1]) then Some(|rs| - 1) else None
  }

  function ClaimTx(m: Mailbox): (Mailbox, Option<Work>) {
    if m.closed then (m, None)
    else
      match FirstClaimable(m.requests)
      case None => (m, None)
      case Some(i) =>
        var q := m.requests[i];
        (m.(requests := m.requests[i := q.(claimed := true)], claims := m.claims + [q.work.id]), Some(q.work))
  }

  function Abandon(q: Pending): Pending {
    if q.future.Waiting? then q.(future := Abandoned) else q
  }

  function CloseTx(m: Mailbox): Mailbox {
    m.(closed := true, requests := seq(|m.requests|, i requires 0 <= i < |m.requests| => Abandon(m.requests[i])))
  }

  // ---------------------------------------------------------------- invariant

  predicate DistinctIds(rs: seq<Pending>) {
    forall i, j :: 0 <= i < j < |rs| ==> rs[i].work.id != rs[j].work.id
  }

  predicate RequestOk(m: Mailbox, q: Pending) {
    && (q.claimed <==> q.work.id in m.claims)
    && (q.future.Done? ==> q.future.result.audit.id == q.work.id && q.future.result.audit.hash == q.work.hash)
  }

  /** The k-th record is the k-th settlement, of a request that holds exactly that audit. */
  predicate RecordOk(m: Mailbox, k: nat)
    requires k < |m.records|
  {
    && m.records[k].sequence == k + 1
    && exists i :: 0 <= i < |m.requests| && m.requests[i].future.Done?
                   && m.requests[i].future.result.audit == m.records[k].audit
  }

  predicate RecordsDistinct(rs: seq<Record>) {
    forall j, k :: 0 <= j < k < |rs| ==> rs[j].audit.id != rs[k].audit.id
  }

  predicate HasRecord(m: Mailbox, a: Audit) {
    exists k :: 0 <= k < |m.records| && m.records[k].audit == a
  }

  predicate MailboxInv(p: Profile, m: Mailbox) {
    && DistinctIds(m.requests)
    && |m.requests| <= p.maxRequests
    && WaitingCount(m.requests) <= 4
    && (forall i :: 0 <= i < |m.requests| ==> RequestOk(m, m.requests[i]))
    && (forall i, j :: 0 <= i < j < |m.claims| ==> m.claims[i] != m.claims[j])
    && (forall k :: 0 <= k < |m.claims| ==> Find(m.requests, m.claims[k]).Some?)
    && (forall k :: 0 <= k < |m.records| ==> RecordOk(m, k))
    && RecordsDistinct(m.records)
    && (forall i :: 0 <= i < |m.requests| && m.requests[i].future.Done? ==> HasRecord(m, m.requests[i].future.result.audit))
  }

  lemma {:induction false} WaitingUpdate(rs: seq<Pending>, k: nat, q: Pending)
    requires k < |rs| && (q.future.Waiting? ==> rs[k].future.Waiting?)
    ensures WaitingCount(rs[k := q]) <= WaitingCount(rs)
  {
    var n := |rs| - 1;
    if k == n {
      assert rs[k := q][..n] == rs[..n];
    } else {
      assert rs[k := q][..n] == rs[..n][k := q];
      WaitingUpdate(rs[..n], k, q);
    }
  }

  lemma {:induction false} NoneWaiting(rs: seq<Pending>)
    requires forall i :: 0 <= i < |rs| ==> !rs[i].future.Waiting?
    ensures WaitingCount(rs) == 0
  {
    if rs != [] {
      NoneWaiting(rs[..|rs| - 1]);
    }
  }

  lemma FindIs(rs: seq<Pending>, i: nat)
    requires DistinctIds(rs) && i < |rs|
    ensures Find(rs, rs[i].work.id) == Some(i)
  {
  }

  lemma SubmitKeeps(p: Profile, m: Mailbox, w: Work)
    requires MailboxInv(p, m)
    ensures MailboxInv(p, SubmitTx(p, m, w).0)
  {
    var (t, reply) := SubmitTx(p, m, w);
    if reply.Queued? {
      assert t.requests[..|m.requests|] == m.requests;
      forall k | 0 <= k < |m.claims| ensures Find(t.requests, m.claims[k]).Some? && m.claims[k] != w.id {
      }
      forall k | 0 <= k < |m.records| ensures RecordOk(t, k) {
        assert RecordOk(m, k);
        var i :| 0 <= i < |m.requests| && m.requests[i].future.Done? && m.requests[i].future.result.audit == m.records[k].audit;
        assert t.requests[i] == m.requests[i];
      }
      forall i | 0 <= i < |m.requests| && m.requests[i].future.Done?
        ensures HasRecord(t, m.requests[i].future.result.audit)
      {
        assert HasRecord(m, m.requests[i].future.result.audit);
      }
    }
  }

  /** A settlement that is recorded: request `i` was waiting, and holds the result now. */
  predicate Settles(m: Mailbox, t: Mailbox, i: nat, r: Result) {
    && i < |m.requests| && m.requests[i].future.Waiting? && m.requests[i].work.id == r.audit.id
    && t.requests == m.requests[i := m.requests[i].(future := Done(r))]
    && t.records == m.records + [Record(|m.records| + 1, r.audit)]
  }

  lemma SettledRecords(p: Profile, m: Mailbox, t: Mailbox, i: nat, r: Result)
    requires MailboxInv(p, m) && Settles(m, t, i, r)
    ensures forall k :: 0 <= k < |t.records| ==> RecordOk(t, k)
    ensures RecordsDistinct(t.records)
  {
    forall k | 0 <= k < |t.records| ensures RecordOk(t, k) {
      if k < |m.records| {
        assert RecordOk(m, k);
        var j :| 0 <= j < |m.requests| && m.requests[j].future.Done? && m.requests[j].future.result.audit == m.records[k].audit;
        assert t.requests[j] == m.requests[j];
      } else {
        assert t.requests[i].future.result.audit == t.records[k].audit;
      }
    }
    forall k | 0 <= k < |m.records| ensures m.records[k].audit.id != r.audit.id {
      assert RecordOk(m, k);
    }
  }

  lemma SettledHasRecord(p: Profile, m: Mailbox, t: Mailbox, i: nat, r: Result)
    requires MailboxInv(p, m) && Settles(m, t, i, r)
    ensures forall j :: 0 <= j < |t.requests| && t.requests[j].future.Done? ==> HasRecord(t, t.requests[j].future.result.audit)
  {
    forall j | 0 <= j < |t.requests| && t.requests[j].future.Done? ensures HasRecord(t, t.requests[j].future.result.audit) {
      if j == i {
        assert t.records[|m.records|].audit == r.audit;
      } else {
        assert HasRecord(m, m.requests[j].future.result.audit);
        var k :| 0 <= k < |m.records| && m.records[k].audit == m.requests[j].future.result.audit;
        assert t.records[k] == m.records[k];
      }
    }
  }

  lemma CompleteKeeps(p: Profile, m: Mailbox, r: Result)
    requires MailboxInv(p, m)
    ensures MailboxInv(p, CompleteTx(m, r).0)
  {
    var (t, reply) := CompleteTx(m, r);
    if reply.Recorded? {
      var i := Find(m.requests, r.audit.id).value;
      WaitingUpdate(m.requests, i, t.requests[i]);
      SettledRecords(p, m, t, i, r);
      SettledHasRecord(p, m, t, i, r);
      forall k | 0 <= k < |m.claims| ensures Find(t.requests, m.claims[k]).Some? {
        var j := Find(m.requests, m.claims[k]).value;
        assert t.requests[j].work == m.requests[j].work;
      }
    }
  }

  lemma ClaimKeeps(p: Profile, m: Mailbox)
    requires MailboxInv(p, m)
    ensures MailboxInv(p, ClaimTx(m).0)
  {
    var (t, w) := ClaimTx(m);
    if w.Some? {
      var i := FirstClaimable(m.requests).value;
      WaitingUpdate(m.requests, i, t.requests[i]);
      assert m.requests[i].work.id !in m.claims;
      forall k | 0 <= k < |t.claims| ensures Find(t.requests, t.claims[k]).Some? {
        if k < |m.claims| {
          var j := Find(m.requests, m.claims[k]).value;
          assert t.requests[j].work == m.requests[j].work;
        } else {
          assert t.requests[i].work.id == t.claims[k];
        }
      }
      forall k | 0 <= k < |m.records| ensures RecordOk(t, k) {
        assert RecordOk(m, k);
        var j :| 0 <= j < |m.requests| && m.requests[j].future.Done? && m.requests[j].future.result.audit == m.records[k].audit;
        assert t.requests[j] == m.requests[j];
      }
      forall j | 0 <= j < |t.requests| && t.requests[j].future.Done? ensures HasRecord(t, t.requests[j].future.result.audit) {
        assert HasRecord(m, m.requests[j].future.result.audit);
      }
    }
  }

  lemma ShutKeeps(p: Profile, m: Mailbox)
    requires MailboxInv(p, m)
    ensures MailboxInv(p, m.(closed := true))
  {
    var t := m.(closed := true);
    forall k | 0 <= k < |t.records| ensures RecordOk(t, k) {
      assert RecordOk(m, k);
    }
    forall j | 0 <= j < |t.requests| && t.requests[j].future.Done? ensures HasRecord(t, t.requests[j].future.result.audit) {
      assert HasRecord(m, m.requests[j].future.result.audit);
    }
  }

  lemma CloseKeeps(p: Profile, m: Mailbox)
    requires MailboxInv(p, m)
    ensures MailboxInv(p, CloseTx(m))
  {
    var t := CloseTx(m);
    NoneWaiting(t.requests);
    forall k | 0 <= k < |m.claims| ensures Find(t.requests, m.claims[k]).Some? {
      var j := Find(m.requests, m.claims[k]).value;
      assert t.requests[j].work == m.requests[j].work;
    }
    forall k | 0 <= k < |m.records| ensures RecordOk(t, k) {
      assert RecordOk(m, k);
      var j :| 0 <= j < |m.requests| && m.requests[j].future.Done? && m.requests[j].future.result.audit == m.records[k].audit;
      assert t.requests[j] == m.requests[j];
    }
    forall j | 0 <= j < |t.requests| && t.requests[j].future.Done? ensures HasRecord(t, t.requests[j].future.result.audit) {
      assert HasRecord(m, m.requests[j].future.result.audit);
    }
  }

  // ---------------------------------------------------------------- what the operations answer

  predicate Waits(q: Pending) {
    q.future == Waiting
  }

  lemma {:induction false} WaitingCountIs(rs: seq<Pending>)
    ensures WaitingCount(rs) == |set i | 0 <= i < |rs| && Waits(rs[i])|
  {
    var now := set i | 0 <= i < |rs| && Waits(rs[i]);
    if rs == [] {
      assert now == {};
    } else {
      var n := |rs| - 1;
      var before := set i | 0 <= i < n && Waits(rs[..n][i]);
      WaitingCountIs(rs[..n]);
      assert now == if Waits(rs[n]) then before + {n} else before;
    }
  }

  predicate IdSeen(rs: seq<Pending>, id: nat) {
    exists i :: 0 <= i < |rs| && rs[i].work.id == id
  }

  /** The checks in their order; a request id that was seen gets its request back, or is refused for other content. */
  predicate SubmitMeans(p: Profile, m: Mailbox, w: Work, t: Mailbox, reply: SubmitReply) {
    var fits := !m.closed && w.modelAllowed && w.size <= p.maxInputBytes;
    var unseen := fits && !IdSeen(m.requests, w.id);
    var full := |set i | 0 <= i < |m.requests| && Waits(m.requests[i])| >= 4;
    && (reply == Closed <==> m.closed)
    && (reply == ModelOutside <==> !m.closed && !w.modelAllowed)
    && (reply == InputLimit <==> !m.closed && w.modelAllowed && w.size > p.maxInputBytes)
    && (fits ==> forall i :: 0 <= i < |m.requests| && m.requests[i].work.id == w.id ==>
          reply == if m.requests[i].work.hash == w.hash then Known(i) else IdReused)
    && (reply == BudgetExhausted <==> unseen && |m.requests| >= p.maxRequests)
    && (reply == QueueFull <==> unseen && |m.requests| < p.maxRequests && full)
    && (reply == Queued(|m.requests|) <==> unseen && |m.requests| < p.maxRequests && !full)
    && t == (if reply == Queued(|m.requests|) then m.(requests := m.requests + [Pending(w, false, Waiting)]) else m)
  }

  lemma SubmitAnswers(p: Profile, m: Mailbox, w: Work)
    requires DistinctIds(m.requests)
    ensures var (t, reply) := SubmitTx(p, m, w); SubmitMeans(p, m, w, t, reply)
  {
    WaitingCountIs(m.requests);
  }

  /** The request under this id holds the result now, and its audit is the newest record. */
  predicate Completes(m: Mailbox, i: nat, r: Result, t: Mailbox) {
    && i < |m.requests|
    && t == m.(requests := m.requests[i := m.requests[i].(future := Done(r))],
               records := m.records + [Record(|m.records| + 1, r.audit)])
  }

  /** A result settles the request of its id and content that waits; the same result again is a repeat. */
  predicate CompleteMeans(m: Mailbox, r: Result, t: Mailbox, reply: CompleteReply) {
    && (reply == Unknown <==> !IdSeen(m.requests, r.audit.id))
    && (reply != Recorded ==> t == m)
    && forall i :: 0 <= i < |m.requests| && m.requests[i].work.id == r.audit.id ==>
         var q := m.requests[i];
         && (reply == Mismatch <==> q.work.hash != r.audit.hash)
         && (reply == Recorded <==> q.work.hash == r.audit.hash && q.future == Waiting)
         && (reply == Repeated <==> q.work.hash == r.audit.hash && q.future == Done(r))
         && (reply == Recorded ==> Completes(m, i, r, t))
  }

  lemma CompleteAnswers(m: Mailbox, r: Result)
    requires DistinctIds(m.requests)
    ensures var (t, reply) := CompleteTx(m, r); CompleteMeans(m, r, t, reply)
  {
  }

  /** The mailbox's own failure of a request: its whole reservation when it was claimed, nothing when it was not. */
  predicate FailsAs(p: Profile, q: Pending, code: nat, t: Pending) {
    && t.work == q.work && t.claimed == q.claimed && t.future.Done?
    && t.future.result.content.None?
    && var a := t.future.result.audit;
       var input, output := if q.claimed then q.work.size + 64 * q.work.messages + 256 else 0, if q.claimed then p.maxOutput else 0;
       a == Audit(q.work.id, q.work.hash, Failed, code, input, output, Price(p, input, output),
                  if q.claimed then Reservation else NotDispatched)
  }

  lemma FailAnswers(p: Profile, m: Mailbox, i: nat, code: nat)
    requires MailboxInv(p, m) && i < |m.requests|
    ensures var t := FailTx(p, m, i, code);
            if m.requests[i].future == Waiting then
              && |t.requests| == |m.requests| && FailsAs(p, m.requests[i], code, t.requests[i])
              && Completes(m, i, t.requests[i].future.result, t)
            else t == m
  {
    FindIs(m.requests, i);
  }

  /** From the i-th on every waiting request is failed, and nothing else changes. */
  predicate FailsFrom(p: Profile, m: Mailbox, i: nat, code: nat, t: Mailbox) {
    && t.closed == m.closed && t.claims == m.claims && |t.requests| == |m.requests| && m.records <= t.records
    && forall j :: 0 <= j < |m.requests| ==>
         if i <= j && m.requests[j].future == Waiting then FailsAs(p, m.requests[j], code, t.requests[j])
         else t.requests[j] == m.requests[j]
  }

  lemma {:induction false} FailFromAnswers(p: Profile, m: Mailbox, i: nat, code: nat)
    requires MailboxInv(p, m) && i <= |m.requests|
    ensures FailsFrom(p, m, i, code, FailFrom(p, m, i, code))
    decreases |m.requests| - i
  {
    if i < |m.requests| {
      FailAnswers(p, m, i, code);
      if m.requests[i].future.Waiting? {
        CompleteKeeps(p, m, Failure(p, m.requests[i], code));
      }
      FailFromAnswers(p, FailTx(p, m, i, code), i + 1, code);
    }
  }

  lemma FailPendingAnswers(p: Profile, m: Mailbox)
    requires MailboxInv(p, m)
    ensures FailsFrom(p, m.(closed := true), 0, RELAY_FAILED, FailPendingTx(p, m))
  {
    ShutKeeps(p, m);
    FailFromAnswers(p, m.(closed := true), 0, RELAY_FAILED);
  }

  /** A queue time-out fails only a request that nobody has claimed and that still waits. */
  lemma QueueTimeoutAnswers(p: Profile, m: Mailbox, i: nat)
    requires MailboxInv(p, m)
    ensures var t := QueueTimeoutTx(p, m, i);
            if i < |m.requests| && !m.requests[i].claimed && m.requests[i].future == Waiting then
              && |t.requests| == |m.requests| && FailsAs(p, m.requests[i], QUEUE_TIMEOUT, t.requests[i])
              && Completes(m, i, t.requests[i].future.result, t)
            else t == m
  {
    if i < |m.requests| {
      FailAnswers(p, m, i, QUEUE_TIMEOUT);
    }
  }

  predicate CanClaim(q: Pending) {
    q.future == Waiting && !q.claimed
  }

  /** A claim hands out the oldest request that waits unclaimed, and marks it. */
  lemma ClaimAnswers(m: Mailbox)
    ensures var (t, work) := ClaimTx(m);
            if m.closed || forall i :: 0 <= i < |m.requests| ==> !CanClaim(m.requests[i]) then
              t == m && work.None?
            else
              exists i :: 0 <= i < |m.requests| && CanClaim(m.requests[i])
                          && (forall j :: 0 <= j < i ==> !CanClaim(m.requests[j]))
                          && work == Some(m.requests[i].work)
                          && t == m.(requests := m.requests[i := m.requests[i].(claimed := true)],
                                     claims := m.claims + [m.requests[i].work.id])
  {
    assert forall i :: 0 <= i < |m.requests| ==> Claimable(m.requests[i]) == CanClaim(m.requests[i]);
  }

  /** Closing gives up whatever waits, and nothing else. */
  lemma CloseAnswers(m: Mailbox)
    ensures var t := CloseTx(m);
            && t == m.(closed := true, requests := t.requests) && |t.requests| == |m.requests|
            && forall i :: 0 <= i < |m.requests| ==>
                 t.requests[i] == if m.requests[i].future == Waiting then m.requests[i].(future := Abandoned) else m.requests[i]
  {
  }
}
