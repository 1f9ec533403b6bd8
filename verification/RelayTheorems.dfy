/**
 What the relay does with a request from its claim to its settlement, and how it ends: which messages
 it repeats and how often, when it breaks, and that a broken or stopped relay does no more work.
 */
module RelayTheorems {
  import opened Prelude
  import opened InferenceContracts
  import opened InferenceRelay
  import B = InferenceBroker
  import M = InferenceMailbox

  lemma {:induction false} RunSplits(p: Profile, s: Metering, es: seq<Event>, fs: seq<Event>)
    ensures Run(p, s, es + fs) == Run(p, Run(p, s, es), fs)
    decreases |es|
  {
    if es == [] {
      assert es + fs == fs;
    } else {
      assert (es + fs)[1..] == es[1..] + fs;
      RunSplits(p, Next(p, s, es[0]), es[1..], fs);
    }
  }

  lemma RunTwo(p: Profile, s: Metering, a: Event, b: Event)
    ensures Run(p, s, [a, b]) == Next(p, Next(p, s, a), b)
  {
    var t := Next(p, s, a);
    assert [a, b][1..] == [b] && [b][1..] == [];
    assert Run(p, t, [b]) == Next(p, t, b);
  }

  // ---------------------------------------------------------------- claiming

  /** The i-th request is the oldest that waits unclaimed, in an open mailbox. */
  predicate NextToClaim(m: M.Mailbox, i: nat) {
    && !m.closed && i < |m.requests| && M.CanClaim(m.requests[i])
    && forall j :: 0 <= j < i ==> !M.CanClaim(m.requests[j])
  }

  predicate Claims(m: M.Mailbox, i: nat, n: M.Mailbox)
    requires i < |m.requests|
  {
    n == m.(requests := m.requests[i := m.requests[i].(claimed := true)], claims := m.claims + [m.requests[i].work.id])
  }

  predicate NothingToClaim(m: M.Mailbox) {
    forall i :: 0 <= i < |m.requests| ==> !NextToClaim(m, i)
  }

  lemma ClaimIs(m: M.Mailbox)
    ensures var (n, work) := M.ClaimTx(m);
            if work.None? then n == m && NothingToClaim(m)
            else exists i :: 0 <= i < |m.requests| && NextToClaim(m, i) && Claims(m, i, n) && work == Some(m.requests[i].work)
  {
    M.ClaimAnswers(m);
    if M.ClaimTx(m).1.Some? {
      var i := M.FirstClaimable(m.requests).value;
      assert forall j :: 0 <= j < i ==> !M.Claimable(m.requests[j]);
      assert NextToClaim(m, i);
    }
  }

  lemma OneNext(m: M.Mailbox)
    ensures forall i, j :: (0 <= i < |m.requests| && 0 <= j < |m.requests| && NextToClaim(m, i) && NextToClaim(m, j)) ==> i == j
  {
  }

  /** A poll takes up the oldest waiting request; one that finds none leaves everything as it was. */
  lemma PollTakesUp(p: Profile, s: Metering)
    requires s.relay.Polling?
    ensures var t := Next(p, s, Poll);
            && t.broker == s.broker
            && (forall i :: 0 <= i < |s.mailbox.requests| && NextToClaim(s.mailbox, i) ==>
                  Claims(s.mailbox, i, t.mailbox) && t.relay == Holding(s.mailbox.requests[i].work))
            && (NothingToClaim(s.mailbox) ==> t.mailbox == s.mailbox && t.relay == Polling(0))
  {
    ClaimIs(s.mailbox);
    OneNext(s.mailbox);
  }

  /** A poll whose answer does not arrive: the claim stands exactly when it took effect, and its work is lost to the relay. */
  lemma LostPollTakesUpNothing(p: Profile, s: Metering, applied: bool)
    requires s.relay.Polling?
    ensures var t := Next(p, s, PollLost(applied));
            && t.broker == s.broker
            && t.mailbox == (if applied then M.ClaimTx(s.mailbox).0 else s.mailbox)
            && t.relay == (if s.relay.failures >= 99 then Broken else Polling(s.relay.failures + 1))
  {
  }

  lemma ErrorPollBreaks(p: Profile, s: Metering, applied: bool)
    requires s.relay.Polling?
    ensures Next(p, s, PollError(applied))
            == s.(mailbox := if applied then M.ClaimTx(s.mailbox).0 else s.mailbox, relay := Broken)
  {
  }

  /** Polls that are lost before they take effect: the hundredth in a row breaks the relay. */
  lemma {:induction false} LostPollsInARow(p: Profile, s: Metering, n: nat)
    requires s.relay == Polling(0)
    ensures Run(p, s, seq(n, i => PollLost(false)))
            == s.(relay := if n >= 100 then Broken else Polling(n))
  {
    LostPollsFrom(p, s, 0, n);
  }

  lemma {:induction false} LostPollsFrom(p: Profile, s: Metering, failures: nat, n: nat)
    requires s.relay == (if failures >= 100 then Broken else Polling(failures))
    ensures Run(p, s, seq(n, i => PollLost(false)))
            == s.(relay := if failures + n >= 100 then Broken else Polling(failures + n))
    decreases n
  {
    var es := seq(n, i => PollLost(false));
    if n > 0 {
      assert es[1..] == seq(n - 1, i => PollLost(false));
      LostPollsFrom(p, Next(p, s, es[0]), failures + 1, n - 1);
    }
  }

  /** An answered poll, also one of an episode that is not there yet, starts the count again. */
  lemma AnsweredPollResets(p: Profile, s: Metering)
    requires s.relay.Polling?
    ensures Next(p, s, PollMissing) == s.(relay := Polling(0))
  {
  }

  // ---------------------------------------------------------------- calling

  /** New work within the limits is called. */
  lemma NewWorkIsCalled(p: Profile, s: Metering)
    requires MeteringInv(p, s) && s.relay.Holding? && !s.broker.closed
    requires B.Unseen(s.broker.entries, s.relay.work.id) && B.Admitted(p, s.broker, s.relay.work)
    ensures var w, t := s.relay.work, Next(p, s, Call);
            && t.mailbox == s.mailbox && t.relay == Calling(w) && t.broker.inflight == Some(w)
            && t.broker.entries == s.broker.entries && t.broker.dispatches == s.broker.dispatches + [w.id]
  {
    B.RejectionIs(p, s.broker, s.relay.work);
  }

  /** New work outside a limit is answered at once, with the broker's rejection. */
  lemma NewWorkIsRejected(p: Profile, s: Metering)
    requires MeteringInv(p, s) && s.relay.Holding? && !s.broker.closed
    requires B.Unseen(s.broker.entries, s.relay.work.id) && !B.Admitted(p, s.broker, s.relay.work)
    ensures var w, t := s.relay.work, Next(p, s, Call);
            && t.mailbox == s.mailbox && t.relay.Posting? && t.relay.attempt == 0
            && B.Rejects(p, s.broker, w, t.broker, Some(t.relay.result))
  {
    B.RejectionIs(p, s.broker, s.relay.work);
  }

  /** Work that the broker has an answer for is not called again; a closed broker and other content break the relay. */
  lemma KnownWorkIsNotCalled(p: Profile, s: Metering)
    requires MeteringInv(p, s) && s.relay.Holding? && (s.broker.closed || !B.Unseen(s.broker.entries, s.relay.work.id))
    ensures var w, t := s.relay.work, Next(p, s, Call);
            && t == s.(relay := t.relay)
            && (s.broker.closed ==> t.relay == Broken)
            && (!s.broker.closed ==>
                  forall k :: 0 <= k < |s.broker.entries| && s.broker.entries[k].work.id == w.id ==>
                    t.relay == if s.broker.entries[k].work.hash == w.hash
                               then Posting(s.broker.entries[k].result, 0) else Broken)
  {
  }

  /** An ended call is posted, with what its outcome reports; a cancelled one stops the relay, an escaped one breaks it. */
  lemma CallEndsIn(p: Profile, s: Metering, o: B.Outcome)
    requires ValidProfile(p) && MeteringInv(p, s) && s.relay.Calling?
    ensures var w, t := s.relay.work, Next(p, s, CallEnds(o));
            && t.mailbox == s.mailbox && t.broker == B.FinishCall(p, s.broker, o)
            && (o.Escapes? ==> t.relay == Broken)
            && (o.CallCancelled? ==> t.relay == Stopped)
            && (!o.Escapes? && !o.CallCancelled? ==>
                  && t.relay.Posting? && t.relay.attempt == 0 && B.Reports(p, w, o, t.relay.result)
                  && t.broker.entries == s.broker.entries + [B.Entry(w, t.relay.result, true)])
  {
    if !o.Escapes? {
      B.ResultReports(p, s.relay.work, o);
      B.FinishKeeps(p, s.broker, o);
    }
  }

  // ---------------------------------------------------------------- posting

  /** The result is that of the i-th request, which waits for it. */
  predicate Awaited(m: M.Mailbox, i: nat, r: Result) {
    && i < |m.requests| && m.requests[i].work.id == r.audit.id && m.requests[i].work.hash == r.audit.hash
    && m.requests[i].future == M.Waiting
  }

  function SettledBy(m: M.Mailbox, i: nat, r: Result): M.Mailbox
    requires i < |m.requests|
  {
    m.(requests := m.requests[i := m.requests[i].(future := M.Done(r))],
       records := m.records + [M.Record(|m.records| + 1, r.audit)])
  }

  /** A post as the gateway and the relay see it: whether it took effect, and whether its answer arrived. */
  datatype Sent = Sent(applied: bool, acknowledged: bool)

  function Posts(sent: seq<Sent>): seq<Event> {
    seq(|sent|, i requires 0 <= i < |sent| => Post(sent[i].applied, sent[i].acknowledged))
  }

  predicate Accepted(x: Sent) {
    x.applied && x.acknowledged
  }

  predicate AnyApplied(sent: seq<Sent>) {
    exists k :: 0 <= k < |sent| && sent[k].applied
  }

  /** The mailbox before or after the result took effect. */
  lemma OnePost(p: Profile, s: Metering, before: M.Mailbox, i: nat, r: Result, attempt: nat, done: bool, x: Sent)
    requires M.DistinctIds(before.requests) && Awaited(before, i, r) && s.relay == Posting(r, attempt)
    requires s.mailbox == if done then SettledBy(before, i, r) else before
    ensures Next(p, s, Post(x.applied, x.acknowledged))
            == s.(mailbox := if done || x.applied then SettledBy(before, i, r) else before,
                  relay := if Accepted(x) then Polling(0)
                           else if attempt >= 2 then Broken
                           else Posting(r, attempt + 1))
  {
    M.CompleteAnswers(before, r);
    M.CompleteAnswers(SettledBy(before, i, r), r);
    assert SettledBy(before, i, r).requests[i].future == M.Done(r);
  }

  /**
   A result is posted until the gateway's acceptance arrives, three times at most. The request is settled with it once,
   however many of the posts took effect; without an acceptance among three the relay is broken.
   */
  lemma {:induction false} PostedUntilAccepted(p: Profile, s: Metering, i: nat, r: Result, sent: seq<Sent>)
    requires M.DistinctIds(s.mailbox.requests) && Awaited(s.mailbox, i, r) && s.relay == Posting(r, 0)
    requires 1 <= |sent| <= 3 && forall k :: 0 <= k < |sent| - 1 ==> !Accepted(sent[k])
    ensures Run(p, s, Posts(sent))
            == s.(mailbox := if AnyApplied(sent) then SettledBy(s.mailbox, i, r) else s.mailbox,
                  relay := if Accepted(sent[|sent| - 1]) then Polling(0)
                           else if |sent| == 3 then Broken
                           else Posting(r, |sent|))
    decreases |sent|
  {
    var n := |sent| - 1;
    var before := sent[..n];
    assert Posts(sent) == Posts(before) + [Post(sent[n].applied, sent[n].acknowledged)];
    RunSplits(p, s, Posts(before), [Post(sent[n].applied, sent[n].acknowledged)]);
    if n > 0 {
      PostedUntilAccepted(p, s, i, r, before);
    } else {
      assert Posts(before) == [];
    }
    var t := Run(p, s, Posts(before));
    OnePost(p, t, s.mailbox, i, r, n, AnyApplied(before), sent[n]);
    OneEvent(p, t, Post(sent[n].applied, sent[n].acknowledged));
    assert AnyApplied(sent) <==> AnyApplied(before) || sent[n].applied by {
      assert forall k :: 0 <= k < n ==> before[k] == sent[k];
    }
  }

  lemma OneEvent(p: Profile, s: Metering, e: Event)
    ensures Run(p, s, [e]) == Next(p, s, e)
  {
    assert [e][1..] == [];
    assert Run(p, Next(p, s, e), []) == Next(p, s, e);
  }

  // ---------------------------------------------------------------- a whole request

  lemma HeldIsClaimed(p: Profile, s: Metering, i: nat)
    requires MeteringInv(p, s) && NextToClaim(s.mailbox, i)
    ensures B.Unseen(s.broker.entries, s.mailbox.requests[i].work.id)
  {
    var w := s.mailbox.requests[i].work;
    M.FindIs(s.mailbox.requests, i);
    forall k | 0 <= k < |s.broker.entries| ensures s.broker.entries[k].work.id != w.id {
      assert Claimed(s.mailbox, s.broker.entries[k].work);
    }
  }

  /**
   While no message is lost: the oldest waiting request is claimed, called and settled with what its call reports,
   and the relay polls again.
   */
  lemma RequestIsServed(p: Profile, s: Metering, i: nat, o: B.Outcome)
    requires ValidProfile(p) && MeteringInv(p, s) && s.relay.Polling? && NextToClaim(s.mailbox, i)
    requires !s.broker.closed && B.Admitted(p, s.broker, s.mailbox.requests[i].work)
    requires !o.Escapes? && !o.CallCancelled?
    ensures var w := s.mailbox.requests[i].work;
            var t := Run(p, s, [Poll, Call] + [CallEnds(o), Post(true, true)]);
            && |t.mailbox.requests| == |s.mailbox.requests| && t.mailbox.requests[i].future.Done?
            && var r := t.mailbox.requests[i].future.result;
               && B.Reports(p, w, o, r)
               && t.mailbox.requests == s.mailbox.requests[i := M.Pending(w, true, M.Done(r))]
               && t.mailbox.records == s.mailbox.records + [M.Record(|s.mailbox.records| + 1, r.audit)]
               && t.broker.entries == s.broker.entries + [B.Entry(w, r, true)]
               && t.relay == Polling(0)
  {
    HeldIsClaimed(p, s, i);
    RunSplits(p, s, [Poll, Call], [CallEnds(o), Post(true, true)]);
    var called := Run(p, s, [Poll, Call]);
    ClaimedIsCalled(p, s, i);
    CalledIsServed(p, called, i, o);
  }

  lemma ClaimedIsCalled(p: Profile, s: Metering, i: nat)
    requires ValidProfile(p) && MeteringInv(p, s) && s.relay.Polling? && NextToClaim(s.mailbox, i)
    requires !s.broker.closed && B.Unseen(s.broker.entries, s.mailbox.requests[i].work.id)
    requires B.Admitted(p, s.broker, s.mailbox.requests[i].work)
    ensures var called := Run(p, s, [Poll, Call]);
            && MeteringInv(p, called) && Claims(s.mailbox, i, called.mailbox)
            && called.relay == Calling(s.mailbox.requests[i].work) && called.broker.entries == s.broker.entries
  {
    RunTwo(p, s, Poll, Call);
    var held := Next(p, s, Poll);
    PollTakesUp(p, s);
    InvStep(p, s, Poll);
    NewWorkIsCalled(p, held);
    InvStep(p, held, Call);
  }

  lemma CalledIsServed(p: Profile, called: Metering, i: nat, o: B.Outcome)
    requires ValidProfile(p) && MeteringInv(p, called) && called.relay.Calling? && i < |called.mailbox.requests|
    requires called.mailbox.requests[i].work == called.relay.work && called.mailbox.requests[i].future == M.Waiting
    requires !o.Escapes? && !o.CallCancelled?
    ensures var t := Run(p, called, [CallEnds(o), Post(true, true)]);
            && |t.broker.entries| == |called.broker.entries| + 1
            && var r := t.broker.entries[|called.broker.entries|].result;
               && B.Reports(p, called.relay.work, o, r)
               && t.broker.entries == called.broker.entries + [B.Entry(called.relay.work, r, true)]
               && t.mailbox == SettledBy(called.mailbox, i, r) && t.relay == Polling(0)
  {
    RunTwo(p, called, CallEnds(o), Post(true, true));
    CallEndsIn(p, called, o);
    var ended := Next(p, called, CallEnds(o));
    OnePost(p, ended, called.mailbox, i, ended.relay.result, 0, false, Sent(true, true));
  }

  // ---------------------------------------------------------------- the end of a relay

  predicate Idle(r: Relay) {
    r == Broken || r == Stopped
  }

  /** The relay has stopped, or is broken and has not reported it. */
  predicate SameWork(s: Metering, t: Metering) {
    && t.mailbox.claims == s.mailbox.claims && t.broker.dispatches == s.broker.dispatches
    && t.broker.entries == s.broker.entries
  }

  lemma IdleStep(p: Profile, s: Metering, e: Event)
    requires Idle(s.relay) && M.MailboxInv(p, s.mailbox)
    ensures SameWork(s, Next(p, s, e))
    ensures Next(p, s, e).relay == if e.ReportFailure? || e.CancelRelay? then Stopped else s.relay
  {
    match e
    case ReportFailure(_) => M.FailPendingAnswers(p, s.mailbox);
    case QueueTimeout(i) => M.QueueTimeoutAnswers(p, s.mailbox, i);
    case _ =>
  }

  /** A broken or stopped relay claims and calls nothing more, whatever happens; broken, it stays so until it reports or is cancelled. */
  lemma {:induction false} IdleForever(p: Profile, s: Metering, es: seq<Event>)
    requires ValidProfile(p) && MeteringInv(p, s) && Idle(s.relay)
    ensures var t := Run(p, s, es);
            && SameWork(s, t)
            && (t.relay == Stopped <==>
                  s.relay == Stopped || exists k :: 0 <= k < |es| && (es[k].ReportFailure? || es[k].CancelRelay?))
            && Idle(t.relay)
    decreases |es|
  {
    if es != [] {
      IdleStep(p, s, es[0]);
      InvStep(p, s, es[0]);
      IdleForever(p, Next(p, s, es[0]), es[1..]);
      assert forall k :: 0 < k < |es| ==> es[k] == es[1..][k - 1];
    }
  }

  /** A broken relay reports once; a report that takes effect fails whatever waits. */
  lemma ReportFailsPending(p: Profile, s: Metering, applied: bool)
    requires M.MailboxInv(p, s.mailbox) && s.relay == Broken
    ensures var t := Next(p, s, ReportFailure(applied));
            && t.relay == Stopped && t.broker == s.broker
            && (if applied then M.FailsFrom(p, s.mailbox.(closed := true), 0, M.RELAY_FAILED, t.mailbox)
                else t.mailbox == s.mailbox)
  {
    M.FailPendingAnswers(p, s.mailbox);
  }

  /** A cancelled relay stops at once; one with a call under way stops with that call. */
  lemma CancelStops(p: Profile, s: Metering)
    ensures Next(p, s, CancelRelay) == if s.relay.Calling? then s else s.(relay := Stopped)
  {
  }

  lemma RemovedStep(p: Profile, s: Metering, e: Event)
    requires s.broker.closed
    ensures var t := Next(p, s, e); t.broker.closed && t.broker.dispatches == s.broker.dispatches
  {
  }

  /** Once its episode is removed the broker dispatches nothing more. */
  lemma {:induction false} RemovedForever(p: Profile, s: Metering, es: seq<Event>)
    ensures var t := Run(p, Next(p, s, RemoveEpisode), es);
            t.broker.closed && t.broker.dispatches == s.broker.dispatches
  {
    RemovedRun(p, Next(p, s, RemoveEpisode), es);
  }

  lemma {:induction false} RemovedRun(p: Profile, s: Metering, es: seq<Event>)
    requires s.broker.closed
    ensures Run(p, s, es).broker.closed && Run(p, s, es).broker.dispatches == s.broker.dispatches
    decreases |es|
  {
    if es != [] {
      RemovedStep(p, s, es[0]);
      RemovedRun(p, Next(p, s, es[0]), es[1..]);
    }
  }

  predicate Shut(m: M.Mailbox) {
    m.closed && forall i :: 0 <= i < |m.requests| ==> m.requests[i].future != M.Waiting
  }

  lemma ShutStep(p: Profile, s: Metering, e: Event)
    requires M.MailboxInv(p, s.mailbox) && Shut(s.mailbox)
    ensures var t := Next(p, s, e).mailbox; Shut(t) && t.requests == s.mailbox.requests && t.records == s.mailbox.records
  {
    match e
    case QueueTimeout(i) => M.QueueTimeoutAnswers(p, s.mailbox, i);
    case ReportFailure(_) => ShutFails(p, s.mailbox, 0);
    case Post(_, _) =>
      if s.relay.Posting? {
        M.CompleteAnswers(s.mailbox, s.relay.result);
      }
    case CloseMailbox => ShutCloses(s.mailbox);
    case _ =>
  }

  lemma ShutCloses(m: M.Mailbox)
    requires Shut(m)
    ensures M.CloseTx(m) == m
  {
    assert M.CloseTx(m).requests == m.requests;
  }

  lemma {:induction false} ShutFails(p: Profile, m: M.Mailbox, i: nat)
    requires Shut(m)
    ensures M.FailFrom(p, m, i, M.RELAY_FAILED) == m
    decreases |m.requests| - i
  {
    if i < |m.requests| {
      ShutFails(p, m, i + 1);
    }
  }

  /** A closed mailbox has given up whatever waited, and nothing in it changes any more. */
  lemma {:induction false} ClosedForever(p: Profile, s: Metering, es: seq<Event>, w: Work)
    requires ValidProfile(p) && MeteringInv(p, s)
    ensures var closed, t := Next(p, s, CloseMailbox).mailbox, Run(p, Next(p, s, CloseMailbox), es).mailbox;
            && |closed.requests| == |s.mailbox.requests|
            && (forall i :: 0 <= i < |closed.requests| ==>
                  closed.requests[i] == if s.mailbox.requests[i].future == M.Waiting
                                        then s.mailbox.requests[i].(future := M.Abandoned) else s.mailbox.requests[i])
            && t.requests == closed.requests && t.records == s.mailbox.records
            && M.SubmitTx(p, t, w) == (t, M.Closed)
  {
    M.CloseAnswers(s.mailbox);
    InvStep(p, s, CloseMailbox);
    ShutRun(p, Next(p, s, CloseMailbox), es);
  }

  lemma {:induction false} ShutRun(p: Profile, s: Metering, es: seq<Event>)
    requires ValidProfile(p) && MeteringInv(p, s) && Shut(s.mailbox)
    ensures var t := Run(p, s, es).mailbox;
            Shut(t) && t.requests == s.mailbox.requests && t.records == s.mailbox.records
    decreases |es|
  {
    if es != [] {
      ShutStep(p, s, es[0]);
      InvStep(p, s, es[0]);
      ShutRun(p, Next(p, s, es[0]), es[1..]);
    }
  }

  /** A caller that gives up waiting fails its request, if nobody has claimed it. */
  lemma TimedOutRequestFails(p: Profile, s: Metering, i: nat)
    requires M.MailboxInv(p, s.mailbox) && i < |s.mailbox.requests|
    requires !s.mailbox.requests[i].claimed && s.mailbox.requests[i].future == M.Waiting
    ensures var t := Next(p, s, QueueTimeout(i));
            && |t.mailbox.requests| == |s.mailbox.requests|
            && M.FailsAs(p, s.mailbox.requests[i], M.QUEUE_TIMEOUT, t.mailbox.requests[i])
            && t == s.(mailbox := t.mailbox)
  {
    M.QueueTimeoutAnswers(p, s.mailbox, i);
  }
}
