/**
 What the worker loop adds to the protocol: a worker claims jobs only when none of its coroutines
 is at work, so it never claims a session's job again while its own coroutine is in charge of the
 session. From this alone no internal command is ever committed to a session that has ended.
 */
module SessionClaims {
  import opened Prelude
  import opened SessionStore
  import opened SessionProtocol
  import opened SessionInvariants
  import opened SessionSteps

  /** The claimant has no coroutine in charge of the session. */
  predicate ClaimsAlone(s: Session, e: Event) {
    e.ClaimJob? ==>
      forall i :: 0 <= i < |s.runners| && Current(s.db, s.runners[i]) ==> s.runners[i].worker != e.worker
  }

  predicate ClaimsAloneRun(s: Session, es: seq<Event>)
    decreases |es|
  {
    es != [] ==> ClaimsAlone(s, es[0]) && ClaimsAloneRun(Next(s, es[0]), es[1..])
  }

  /** Along the run no internal command is committed to a session that has ended. */
  predicate OrderlyRun(s: Session, es: seq<Event>)
    decreases |es|
  {
    es != [] ==> Orderly(s, es[0]) && OrderlyRun(Next(s, es[0]), es[1..])
  }

  predicate LeasedTo(j: Job, worker: nat) {
    j.status == Leased && j.owner == Some(worker)
  }

  /** A maintenance pass is about to end the session under the row's own fence. */
  predicate MaintainerRetires(s: Session) {
    exists k :: 0 <= k < |s.runners| && s.runners[k].maintainer && s.runners[k].pc.Retiring?
                && s.runners[k].fence == s.db.row.fence
  }

  /**
   The runner in charge is the row's worker; once the session has ended, or maintenance is about
   to end it, the job is not leased to that worker.
   */
  predicate LeaseInv(s: Session) {
    forall i :: 0 <= i < |s.runners| && Current(s.db, s.runners[i]) ==>
      && s.db.row.worker == Some(s.runners[i].worker)
      && (Terminal(s.db.row.state) || MaintainerRetires(s) ==> !LeasedTo(s.db.job, s.runners[i].worker))
  }

  lemma LeaseRows(s: Session, e: Event)
    requires LeaseInv(s) && RowsOnly(e)
    ensures LeaseInv(Next(s, e))
  {
    var t := Next(s, e);
    RowsMoves(s, e);
    assert t.db.row.worker == s.db.row.worker && t.db.row.state == s.db.row.state;
    assert forall w: nat :: LeasedTo(t.db.job, w) ==> LeasedTo(s.db.job, w);
  }

  lemma LeaseClaimJob(s: Session, e: Event)
    requires LeaseInv(s) && e.ClaimJob? && ClaimsAlone(s, e)
    ensures LeaseInv(Next(s, e))
  {
    var t := Next(s, e);
    assert forall i :: 0 <= i < |t.runners| && Current(t.db, t.runners[i]) ==> i < |s.runners|;
  }

  /** A runner that begins finds no maintenance pass under its fence. */
  lemma LeaseBegin(s: Session, i: nat)
    requires LeaseInv(s) && FenceInv(s)
    ensures LeaseInv(BeginNext(s, i))
  {
    var t := BeginNext(s, i);
    if t != s && !Terminal(s.db.row.state) {
      assert !MaintainerRetires(t);
      forall j | 0 <= j < |t.runners| && Current(t.db, t.runners[j]) ensures j == i {
        assert !s.runners[j].maintainer;
      }
    }
  }

  lemma LeaseMaintainReads(s: Session)
    requires LeaseInv(s)
    ensures LeaseInv(MaintainReadsNext(s))
  {
    var t := MaintainReadsNext(s);
    assert MaintainerRetires(t) ==> MaintainerRetires(s);
  }

  /** Maintenance decides to end a session only while its job is leased to nobody. */
  lemma LeaseJudges(s: Session, i: nat, clock: Option<Reason>)
    requires LeaseInv(s) && FenceInv(s)
    ensures LeaseInv(MaintainJudgesNext(s, i, clock))
  {
    var t := MaintainJudgesNext(s, i, clock);
    if t != s {
      assert RunnerShape(s.runners[i], s.db.job.attempts);
      if At(t, i).Gone? {
        assert MaintainerRetires(t) ==> MaintainerRetires(s);
      }
    }
  }

  /** The session ends by the runner in charge, which leaves, or by a maintenance pass. */
  lemma LeaseRetire(s: Session, i: nat)
    requires LeaseInv(s) && FenceInv(s)
    ensures LeaseInv(RetireNext(s, i))
  {
    var t := RetireNext(s, i);
    if t != s {
      assert MaintainerRetires(t) ==> MaintainerRetires(s);
      assert s.runners[i].maintainer && t.db != s.db ==> MaintainerRetires(s);
      forall j | 0 <= j < |t.runners| && Current(t.db, t.runners[j])
        ensures Current(s.db, s.runners[j]) && (t.db != s.db ==> MaintainerRetires(s))
      {
        assert j != i;
      }
    }
  }

  /** The events of a coroutine at work. */
  lemma LeaseWorks(s: Session, e: Event)
    requires LeaseInv(s) && FenceInv(s) && PcsShaped(s) && OfRunner(e) && !e.MaintainJudges? && !e.Retire?
    ensures LeaseInv(Next(s, e))
  {
    var t := Next(s, e);
    RunnerMoves(s, e);
    if t != s {
      WorkKeepsRow(s, e);
      var i := Index(e);
      assert RunnerShape(s.runners[i], s.db.job.attempts);
      forall k | 0 <= k < |t.runners| && t.runners[k].maintainer && t.runners[k].pc.Retiring?
        ensures s.runners[k].maintainer && s.runners[k].pc.Retiring? && s.runners[k].fence == t.runners[k].fence
      {
      }
      assert MaintainerRetires(t) ==> MaintainerRetires(s);
    }
  }

  /** No coroutine at work ends a session or changes its worker; a maintainer does no such work but crash. */
  lemma WorkKeepsRow(s: Session, e: Event)
    requires FenceInv(s) && PcsShaped(s) && OfRunner(e) && !e.MaintainJudges? && !e.Retire? && Next(s, e) != s
    ensures
      var t := Next(s, e);
      && t.db.row.worker == s.db.row.worker
      && (Terminal(t.db.row.state) ==> Terminal(s.db.row.state))
      && (s.runners[Index(e)].maintainer ==> t.runners[Index(e)].pc.Gone?)
      && !(Current(t.db, t.runners[Index(e)]) && !Current(s.db, s.runners[Index(e)]))
  {
    assert Index(e) < |s.runners|;
    assert RunnerShape(s.runners[Index(e)], s.db.job.attempts);
    if e.Poll? || e.Claim? || e.Internal? || e.Act? || e.ActRaises? {
      EarlyKeepsRow(s, e);
    }
  }

  lemma EarlyKeepsRow(s: Session, e: Event)
    requires FenceInv(s) && PcsShaped(s) && Next(s, e) != s
    requires e.Poll? || e.Claim? || e.Internal? || e.Act? || e.ActRaises?
    ensures
      var t := Next(s, e);
      && t.db.row == s.db.row
      && !s.runners[Index(e)].maintainer && Current(t.db, t.runners[Index(e)]) == Current(s.db, s.runners[Index(e)])
  {
    assert RunnerShape(s.runners[Index(e)], s.db.job.attempts);
  }

  lemma LeaseStep(s: Session, e: Event)
    requires LeaseInv(s) && FenceInv(s) && PcsShaped(s) && ClaimsAlone(s, e)
    ensures LeaseInv(Next(s, e))
  {
    if RowsOnly(e) {
      LeaseRows(s, e);
    } else if e.ClaimJob? {
      LeaseClaimJob(s, e);
    } else if e.Begin? {
      LeaseBegin(s, e.i);
    } else if e.MaintainReads? {
      LeaseMaintainReads(s);
    } else if e.MaintainJudges? {
      LeaseJudges(s, e.i, e.clock);
    } else if e.Retire? {
      LeaseRetire(s, e.i);
    } else {
      LeaseWorks(s, e);
    }
  }

  /** The fence check of an internal command then implies that the session has not ended. */
  lemma LeaseIsOrderly(s: Session, e: Event)
    requires LeaseInv(s) && FenceInv(s)
    ensures Orderly(s, e)
  {
    if InternalCommits(s, e) {
      assert RunnerShape(s.runners[e.i], s.db.job.attempts);
      assert Current(s.db, s.runners[e.i]);
    }
  }

  /** Whatever a worker loop can make of the protocol is orderly: the missing check is never missed. */
  lemma {:induction false} ClaimsAloneIsOrderly(s: Session, es: seq<Event>)
    requires LeaseInv(s) && FenceInv(s) && PcsShaped(s) && ClaimsAloneRun(s, es)
    ensures OrderlyRun(s, es)
    decreases |es|
  {
    if es != [] {
      LeaseIsOrderly(s, es[0]);
      LeaseStep(s, es[0]);
      FenceStep(s, es[0]);
      PcsStep(s, es[0]);
      ClaimsAloneIsOrderly(Next(s, es[0]), es[1..]);
    }
  }
}
