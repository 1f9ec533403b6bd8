/**
 What the workers do with a session: how a command is served from its claim to its completion, how a
 session ends by its client, its clock, its own end or a lost worker, and what becomes of the job's lease.
 */
module SessionRuns {
  import opened Prelude
  import opened SessionStore
  import opened SessionProtocol
  import opened SessionTheorems
  import opened SessionAnswers

  lemma RunThree(s: Session, a: Event, b: Event, c: Event)
    ensures Run(s, [a, b, c]) == Next(Next(Next(s, a), b), c)
  {
    RunTwo(Next(s, a), b, c);
    assert [a, b, c][1..] == [b, c];
  }

  // ---------------------------------------------------------------- a new session

  /** A new session waits for a worker, with nothing done, charged or asked for. */
  lemma FreshIs(q: NewSession)
    ensures
      var s := Fresh(q);
      && s.db.row.key == q.key && s.db.row.hash == q.hash && s.db.row.maxCost == q.maxCost && s.db.row.seed == q.seed
      && s.db.row.mode == q.mode && s.db.row.evaluation == q.evaluation && s.db.row.reproduction == q.reproduction
      && s.db.row.state == Queued && s.db.row.stop == None && s.db.row.episode == None && s.db.row.worker == None
      && s.db.row.stepIndex == 0 && s.db.row.fence == 0 && !s.db.row.released
      && s.db.job == Job(JobPending, None, 0, false)
      && s.db.costUsed == 0.0 && s.db.commands == [] && s.db.settled == None
      && s.runners == [] && s.acted == [] && s.episodes == 0
  {
  }

  // ---------------------------------------------------------------- a command is served

  /** The runner works under the row's fence, with a lease that has not expired. */
  predicate InCharge(s: Session, i: nat) {
    && i < |s.runners| && s.runners[i].fence == s.db.row.fence
    && s.db.job.status == Leased && !s.db.job.expired && s.db.job.owner == s.db.row.worker
  }

  /** A client's session whose next command is the c-th, with its runner between two rounds. */
  predicate Serving(s: Session, i: nat, c: nat) {
    && InCharge(s, i) && s.runners[i].pc == Looping
    && s.db.row.mode == External && !s.db.row.reproduction && s.db.row.stop == None
    && c < |s.db.commands| && s.db.commands[c].status == Pending
    && forall b :: 0 <= b < c ==> s.db.commands[b].status != Pending
  }

  function Moved(s: Session, i: nat, c: nat, status: Status, row: Row, env: Option<Env>): Session
    requires i < |s.runners| && c < |s.db.commands|
  {
    s.(db := s.db.(row := row, commands := s.db.commands[c := s.db.commands[c].(status := status, fence := s.runners[i].fence)]),
       runners := s.runners[i := s.runners[i].(env := env, pc := Looping)])
  }

  /** The command as it is being executed. */
  function Taken(s: Session, i: nat, c: nat): Session
    requires i < |s.runners| && c < |s.db.commands|
  {
    s.(db := s.db.(commands := s.db.commands[c := s.db.commands[c].(status := Running, fence := s.runners[i].fence)]),
       runners := s.runners[i := s.runners[i].(pc := Executing(c))])
  }

  /** A poll and a claim take up the oldest pending command. */
  lemma CommandIsTaken(s: Session, i: nat, c: nat)
    requires Serving(s, i, c)
    ensures Run(s, [Poll(i, None), Claim(i)]) == Taken(s, i, c)
  {
    RunTwo(s, Poll(i, None), Claim(i));
    assert FirstPending(s.db.commands) == Some(c) by {
      assert IsPending(s.db.commands[c]);
      assert forall b :: 0 <= b < c ==> !IsPending(s.db.commands[b]);
    }
  }

  predicate StepFits(s: Session, i: nat, c: nat)
    requires i < |s.runners| && c < |s.db.commands|
  {
    && s.runners[i].env.Some? && s.db.row.state == Active
    && s.db.row.episode == s.db.commands[c].payload.episode
    && s.db.commands[c].payload.expected == s.db.row.stepIndex + 1
  }

  /** A step that fits reaches the environment once, is finished, and moves the row on by what the environment counts. */
  lemma StepIsServed(s: Session, i: nat, c: nat, done: bool)
    requires Serving(s, i, c) && s.db.commands[c].kind == Step && StepFits(s, i, c)
    ensures
      var env := s.runners[i].env.value;
      var row := s.db.row.(stepIndex := env.stepIndex + 1, state := if done then EpisodeDone else Active);
      var t := Run(s, [Poll(i, None), Claim(i)] + [Act(i, done), Commit(i)]);
      t == Moved(s, i, c, Finished, row, if done then None else Some(Env(env.episode, env.stepIndex + 1))).(acted := s.acted + [c])
  {
    RunSplits(s, [Poll(i, None), Claim(i)], [Act(i, done), Commit(i)]);
    CommandIsTaken(s, i, c);
    var taken := Taken(s, i, c);
    RunTwo(taken, Act(i, done), Commit(i));
    StepActs(s, i, c, done);
    Completed(Next(taken, Act(i, done)), s, i, c, Finished);
  }

  lemma StepActs(s: Session, i: nat, c: nat, done: bool)
    requires Serving(s, i, c) && s.db.commands[c].kind == Step && StepFits(s, i, c)
    ensures
      var taken, env := Taken(s, i, c), s.runners[i].env.value;
      Next(taken, Act(i, done))
      == taken.(acted := s.acted + [c],
                runners := taken.runners[i := taken.runners[i].(
                  env := Some(Env(env.episode, env.stepIndex + 1)),
                  pc := Completing(c, Finished, Some(if done then EpisodeDone else Active), Some(env.stepIndex + 1)))])
  {
  }

  /** A step that does not fit is refused, reaches nothing and changes no row. */
  lemma OtherStepIsRefused(s: Session, i: nat, c: nat, done: bool)
    requires Serving(s, i, c) && s.db.commands[c].kind == Step && !StepFits(s, i, c)
    ensures Run(s, [Poll(i, None), Claim(i)] + [Act(i, done), Commit(i)])
            == Moved(s, i, c, Refused, s.db.row, s.runners[i].env)
  {
    RunSplits(s, [Poll(i, None), Claim(i)], [Act(i, done), Commit(i)]);
    CommandIsTaken(s, i, c);
    var taken := Taken(s, i, c);
    RunTwo(taken, Act(i, done), Commit(i));
    StepRefuses(s, i, c, done);
    Completed(Next(taken, Act(i, done)), s, i, c, Refused);
  }

  lemma StepRefuses(s: Session, i: nat, c: nat, done: bool)
    requires Serving(s, i, c) && s.db.commands[c].kind == Step && !StepFits(s, i, c)
    ensures
      var taken := Taken(s, i, c);
      Next(taken, Act(i, done)) == taken.(runners := taken.runners[i := taken.runners[i].(pc := Completing(c, Refused, None, None))])
  {
  }

  /** What a commit makes of a command that is being completed. */
  lemma Completed(u: Session, s: Session, i: nat, c: nat, status: Status)
    requires InCharge(u, i) && i < |s.runners| && c < |s.db.commands| && u.runners[i].pc.Completing?
    requires u.runners[i].pc.c == c && u.runners[i].pc.status == status
    requires u.db.commands == s.db.commands[c := s.db.commands[c].(status := Running, fence := s.runners[i].fence)]
    ensures
      var pc := u.runners[i].pc;
      var t := Next(u, Commit(i));
      && t.db == u.db.(row := t.db.row, commands := s.db.commands[c := s.db.commands[c].(status := status, fence := s.runners[i].fence)])
      && t.db.row == u.db.row.(state := if pc.state.Some? then pc.state.value else u.db.row.state,
                               stepIndex := if pc.index.Some? then pc.index.value else u.db.row.stepIndex)
      && t == u.(db := t.db, runners := u.runners[i := u.runners[i].(pc := Looping,
                   env := if pc.state == Some(EpisodeDone) then None else u.runners[i].env)])
  {
    assert u.db.commands[c := u.db.commands[c].(status := status)]
           == s.db.commands[c := s.db.commands[c].(status := status, fence := s.runners[i].fence)];
  }

  /** A reset that is admitted starts a new episode at index zero and is finished. */
  lemma ResetIsServed(s: Session, i: nat, c: nat)
    requires Serving(s, i, c) && s.db.commands[c].kind == Reset
    ensures
      var t := Run(s, [Poll(i, None), Claim(i)] + [StartReset(i, true), Attach(i), Commit(i)]);
      t == Moved(s, i, c, Finished, s.db.row.(state := Active, stepIndex := 0, episode := Some(s.episodes)),
                 Some(Env(s.episodes, 0))).(episodes := s.episodes + 1)
  {
    RunSplits(s, [Poll(i, None), Claim(i)], [StartReset(i, true), Attach(i), Commit(i)]);
    CommandIsTaken(s, i, c);
    var taken := Taken(s, i, c);
    RunThree(taken, StartReset(i, true), Attach(i), Commit(i));
    var attached := Next(Next(taken, StartReset(i, true)), Attach(i));
    ResetAttaches(s, i, c);
    Completed(attached, s, i, c, Finished);
  }

  lemma ResetAttaches(s: Session, i: nat, c: nat)
    requires Serving(s, i, c) && s.db.commands[c].kind == Reset
    ensures
      var taken := Taken(s, i, c);
      Next(Next(taken, StartReset(i, true)), Attach(i))
      == taken.(db := taken.db.(row := s.db.row.(episode := Some(s.episodes))), episodes := s.episodes + 1,
                runners := taken.runners[i := taken.runners[i].(
                  env := Some(Env(s.episodes, 0)), pc := Completing(c, Finished, Some(Active), Some(0)))])
  {
    var taken := Taken(s, i, c);
    var started := Next(taken, StartReset(i, true));
    assert started == taken.(episodes := s.episodes + 1, runners := taken.runners[i := taken.runners[i].(
                        env := Some(Env(s.episodes, 0)), pc := Attaching(c))]);
  }

  /** A reset that is not admitted is refused, and leaves no episode to step in. */
  lemma OtherResetIsRefused(s: Session, i: nat, c: nat)
    requires Serving(s, i, c) && s.db.commands[c].kind == Reset
    ensures Run(s, [Poll(i, None), Claim(i)] + [StartReset(i, false), Commit(i)])
            == Moved(s, i, c, Refused, s.db.row.(state := EpisodeDone), None)
  {
    RunSplits(s, [Poll(i, None), Claim(i)], [StartReset(i, false), Commit(i)]);
    CommandIsTaken(s, i, c);
    var taken := Taken(s, i, c);
    RunTwo(taken, StartReset(i, false), Commit(i));
    ResetRefuses(s, i, c);
    Completed(Next(taken, StartReset(i, false)), s, i, c, Refused);
  }

  lemma ResetRefuses(s: Session, i: nat, c: nat)
    requires Serving(s, i, c) && s.db.commands[c].kind == Reset
    ensures
      var taken := Taken(s, i, c);
      Next(taken, StartReset(i, false))
      == taken.(runners := taken.runners[i := taken.runners[i].(env := None, pc := Completing(c, Refused, Some(EpisodeDone), None))])
  {
  }

  /** A round that finds nothing pending changes nothing. */
  lemma IdleRound(s: Session, i: nat)
    requires InCharge(s, i) && s.runners[i].pc == Looping && s.db.row.mode == External && !s.db.row.reproduction
    requires s.db.row.stop == None && forall c :: 0 <= c < |s.db.commands| ==> s.db.commands[c].status != Pending
    ensures Run(s, [Poll(i, None), Claim(i)]) == s
  {
    RunTwo(s, Poll(i, None), Claim(i));
    assert forall c :: 0 <= c < |s.db.commands| ==> !IsPending(s.db.commands[c]);
  }

  // ---------------------------------------------------------------- without the lease

  /** A runner that lost its lease or its fence and finds out in a transaction goes on to retire the session. */
  lemma LeaseLostRetires(s: Session, i: nat, e: Event)
    requires i < |s.runners| && !InCharge(s, i)
    requires || (e == Claim(i) && s.runners[i].pc == Claiming && s.db.row.mode == External && !s.db.row.reproduction)
             || (e == Attach(i) && s.runners[i].pc.Attaching? && s.runners[i].env.Some?)
             || (e == Commit(i) && s.runners[i].pc.Completing?)
    ensures Next(s, e) == s.(runners := s.runners[i := s.runners[i].(pc := Retiring(Interrupted, ExecutionInterrupted))])
  {
  }

  // ---------------------------------------------------------------- how a session ends

  predicate AtWork(s: Session, i: nat) {
    && i < |s.runners| && s.runners[i].fence == s.db.row.fence && !Ended(s.db) && !s.db.row.released
  }

  /** The state a session ends in when its worker finds this reason to stop. */
  function EndedBy(reason: Reason): State {
    match reason
    case ClientCancelled => Cancelled
    case ClientClosed => Closed
    case _ => Expired
  }

  lemma PollFinds(s: Session, i: nat, clock: Option<Reason>, reason: Reason)
    requires i < |s.runners| && s.runners[i].pc == Looping && s.db.row.mode == External && !s.db.row.reproduction
    requires s.db.row.stop == Some(reason) || (s.db.row.stop == None && clock == Some(reason))
    ensures Next(s, Poll(i, clock)) == s.(runners := s.runners[i := s.runners[i].(pc := Retiring(EndedBy(reason), reason))])
  {
    match reason
    case ClientCancelled =>
    case ClientClosed =>
    case _ =>
  }

  /** A worker that finds a recorded reason, or else one of the clock, ends the session by it and leaves. */
  lemma StopEndsSession(s: Session, i: nat, clock: Option<Reason>, reason: Reason)
    requires AtWork(s, i) && s.runners[i].pc == Looping && s.db.row.mode == External && !s.db.row.reproduction
    requires s.db.row.stop == Some(reason) || (s.db.row.stop == None && clock == Some(reason))
    ensures
      var t := Run(s, [Poll(i, clock), Retire(i)]);
      && t.db.row.state == EndedBy(reason) && t.db.row.stop == Some(reason) && t.db.row.released
      && EndsAll(s.db.commands, t.db.commands)
      && t.db.settled == Some(if SomeRunning(s.db.commands) then s.db.row.maxCost else s.db.costUsed)
      && t.runners == s.runners[i := s.runners[i].(env := None, pc := Gone)]
  {
    RunTwo(s, Poll(i, clock), Retire(i));
    PollFinds(s, i, clock, reason);
    RetireAnswers(s.db, s.runners[i].fence, EndedBy(reason), reason);
  }

  /** The retirement of a runner that has this end and reason in mind, when the client has not asked to stop. */
  lemma RetiringEnds(s: Session, i: nat)
    requires AtWork(s, i) && s.runners[i].pc.Retiring? && s.db.row.stop == None
    ensures
      var pc, t := s.runners[i].pc, Next(s, Retire(i));
      && t.db.row.state == pc.end && t.db.row.stop == Some(pc.reason) && t.db.row.released
      && EndsAll(s.db.commands, t.db.commands)
      && t.db.settled == Some(if pc.end == Interrupted || SomeRunning(s.db.commands) then s.db.row.maxCost else s.db.costUsed)
      && t.runners == s.runners[i := s.runners[i].(env := None, pc := Gone)]
  {
    RetireAnswers(s.db, s.runners[i].fence, s.runners[i].pc.end, s.runners[i].pc.reason);
  }

  /** A step that raises has reached the environment; its session is interrupted, and the step's outcome unknown. */
  lemma RaisingStepInterrupts(s: Session, i: nat, c: nat)
    requires AtWork(s, i) && s.runners[i].pc == Executing(c) && c < |s.db.commands| && s.db.commands[c].kind == Step
    requires s.db.commands[c].status == Running && StepFits(s, i, c) && s.db.row.stop == None
    ensures
      var t := Run(s, [ActRaises(i), Retire(i)]);
      && t.acted == s.acted + [c] && t.db.row.state == Interrupted && t.db.row.stop == Some(ExecutionInterrupted)
      && |t.db.commands| == |s.db.commands| && t.db.commands[c].status == Indeterminate
      && t.db.settled == Some(s.db.row.maxCost)
  {
    RunTwo(s, ActRaises(i), Retire(i));
    RetiringEnds(Next(s, ActRaises(i)), i);
    assert EndsAs(s.db.commands[c], Run(s, [ActRaises(i), Retire(i)]).db.commands[c]);
  }

  /** An environment takes a raising step into its count. */
  lemma RaisingStepCounts(s: Session, i: nat, c: nat)
    requires i < |s.runners| && s.runners[i].pc == Executing(c) && c < |s.db.commands| && s.db.commands[c].kind == Step
    requires StepFits(s, i, c)
    ensures
      var env, t := s.runners[i].env.value, Next(s, ActRaises(i));
      t == s.(acted := s.acted + [c],
              runners := s.runners[i := s.runners[i].(env := Some(Env(env.episode, env.stepIndex + 1)),
                                                      pc := Retiring(Interrupted, ExecutionInterrupted))])
  {
  }

  predicate WorkingAt(pc: Pc) {
    pc == Looping || pc == Claiming || pc.Executing? || pc.Attaching? || pc.Completing?
  }

  /** Any exception or cancellation of a worker's coroutine interrupts its session. */
  lemma AbortInterrupts(s: Session, i: nat, reason: Reason)
    requires AtWork(s, i) && WorkingAt(s.runners[i].pc) && (reason == WorkerInterrupted || reason == ExecutionInterrupted)
    requires s.db.row.stop == None
    ensures
      var t := Run(s, [Abort(i, reason), Retire(i)]);
      && t.db.row.state == Interrupted && t.db.row.stop == Some(reason) && t.db.settled == Some(s.db.row.maxCost)
      && EndsAll(s.db.commands, t.db.commands)
      && t.runners == s.runners[i := s.runners[i].(env := None, pc := Gone)]
  {
    RunTwo(s, Abort(i, reason), Retire(i));
    RetiringEnds(Next(s, Abort(i, reason)), i);
  }

  /** A self-driven session that comes to its own end is completed for that reason. */
  lemma OwnEndCompletes(s: Session, i: nat, reason: Reason)
    requires AtWork(s, i) && s.runners[i].pc == Looping && (s.db.row.mode == Managed || s.db.row.reproduction)
    requires reason == ReproductionCompleted || reason == ManagedCompleted || reason == ModelBudgetExhausted
    requires s.db.row.stop == None
    ensures
      var t := Run(s, [RunEnds(i, reason), Retire(i)]);
      && t.db.row.state == SessionStore.State.Completed && t.db.row.stop == Some(reason)
      && t.db.settled == Some(if SomeRunning(s.db.commands) then s.db.row.maxCost else s.db.costUsed)
  {
    RunTwo(s, RunEnds(i, reason), Retire(i));
    RetiringEnds(Next(s, RunEnds(i, reason)), i);
  }

  /** A worker's own command is running from the moment it is recorded, and the worker goes on to execute it. */
  lemma OwnCommandRuns(s: Session, i: nat, kind: Kind, payload: Payload)
    requires InCharge(s, i) && s.runners[i].pc == Looping && (s.db.row.mode == Managed || s.db.row.reproduction)
    requires kind == Reset || kind == Step
    ensures Next(s, Internal(i, kind, payload))
            == s.(db := s.db.(commands := s.db.commands + [Command(None, 0, kind, payload, Running, s.runners[i].fence)]),
                  runners := s.runners[i := s.runners[i].(pc := Executing(|s.db.commands|))])
  {
  }

  // ---------------------------------------------------------------- the job's lease

  /** A job waiting, or held by a lease that expired, is claimed while attempts are left. */
  predicate CanBeClaimed(j: Job, most: nat) {
    j.attempts < most && (j.status == JobPending || (j.status == Leased && j.expired))
  }

  lemma JobIsClaimed(s: Session, worker: nat, most: nat)
    ensures
      var t := Next(s, ClaimJob(worker, most));
      if CanBeClaimed(s.db.job, most) then
        t == s.(db := s.db.(job := Job(Leased, Some(worker), s.db.job.attempts + 1, false)),
                runners := s.runners + [Runner(s.db.job.attempts + 1, worker, None, Starting, false)])
      else t == s
  {
  }

  /** The first worker of a session makes it ready; any later one finds it interrupted, and ends it. */
  lemma TakeoverInterrupts(s: Session, i: nat)
    requires i < |s.runners| && s.runners[i].pc == Starting && !Ended(s.db) && !s.db.row.released && s.db.row.stop == None
    ensures
      var r, t := s.runners[i], Next(s, Begin(i));
      && t.db == s.db.(row := s.db.row.(fence := r.fence, worker := Some(r.worker), state := Ready))
      && (s.db.row.fence == 0 && r.fence <= 1 ==> t.runners[i] == r.(pc := Looping))
      && (s.db.row.fence > 0 || r.fence > 1 ==>
            var u := Next(t, Retire(i));
            && u.db.row.state == Interrupted && u.db.row.stop == Some(WorkerInterrupted)
            && u.db.settled == Some(s.db.row.maxCost) && EndsAll(s.db.commands, u.db.commands))
  {
    var t := Next(s, Begin(i));
    if s.db.row.fence > 0 || s.runners[i].fence > 1 {
      RetiringEnds(t, i);
    }
  }

  lemma EndedSessionIsLeft(s: Session, i: nat)
    requires i < |s.runners| && s.runners[i].pc == Starting && Ended(s.db)
    ensures Next(s, Begin(i)) == s.(runners := s.runners[i := s.runners[i].(pc := Gone)])
  {
    EndedIsTerminal(s.db);
  }

  /** A worker that dies takes its environment along and leaves the rows as they are. */
  lemma CrashLeavesRows(s: Session, i: nat)
    requires i < |s.runners|
    ensures Next(s, Crash(i)) == s.(runners := s.runners[i := s.runners[i].(pc := Gone, env := None)])
  {
  }

  /** What each lease transaction does to the job: only the worker that holds the lease renews, finishes or gives it up. */
  lemma LeaseMoves(s: Session, worker: nat, most: nat)
    ensures
      var j := s.db.job;
      var holds := j.owner == Some(worker);
      && Next(s, LeaseExpires) == s.(db := s.db.(job := j.(expired := true)))
      && Next(s, RenewLease(worker)).db.job == (if holds && j.status == Leased then j.(expired := false) else j)
      && Next(s, FinishJob(worker)).db.job == (if holds then Job(JobCompleted, None, j.attempts, false) else j)
      && Next(s, FailOrRetryJob(worker, most)).db.job
         == (if !holds || j.status != Leased then j
             else Job(if j.attempts >= most then JobFailed else JobPending, None, j.attempts, false))
      && Next(s, ReapJob(most)).db.job
         == (if j.status == Leased && j.expired && j.attempts >= most then Job(JobFailed, None, j.attempts, false) else j)
  {
  }

  /** Usage is added to the campaign, whatever state the session is in. */
  lemma UsageAdds(s: Session, cost: real)
    requires cost >= 0.0
    ensures Next(s, Usage(cost)) == s.(db := s.db.(costUsed := s.db.costUsed + cost))
  {
  }

  // ---------------------------------------------------------------- maintenance

  /** What a pass over the session decides, from its job and what it read of its row. */
  function Judged(s: Session, clock: Option<Reason>): Pc {
    var reason := if s.db.row.stop.Some? then s.db.row.stop else clock;
    if s.db.job.status == JobFailed then Retiring(Interrupted, WorkerInterrupted)
    else if s.db.job.status == JobPending && reason.Some? then Retiring(Expired, reason.value)
    else Gone
  }

  lemma PassJudges(s: Session, clock: Option<Reason>)
    requires !Ended(s.db)
    ensures Run(s, [MaintainReads, MaintainJudges(|s.runners|, clock)])
            == Listed(s, Judged(s, clock))
  {
    RunTwo(s, MaintainReads, MaintainJudges(|s.runners|, clock));
    PassLists(s);
    PassDecides(s, Next(s, MaintainReads), clock);
  }

  function Listed(s: Session, pc: Pc): Session {
    s.(runners := s.runners + [Runner(s.db.row.fence, 0, None, pc, true)])
  }

  lemma PassLists(s: Session)
    requires !Ended(s.db)
    ensures Next(s, MaintainReads) == Listed(s, Inspecting(s.db.row.stop))
  {
    EndedIsTerminal(s.db);
  }

  lemma PassDecides(s: Session, listed: Session, clock: Option<Reason>)
    requires listed == Listed(s, Inspecting(s.db.row.stop))
    ensures Next(listed, MaintainJudges(|s.runners|, clock)) == Listed(s, Judged(s, clock))
  {
    var n := |s.runners|;
    assert listed.runners[n := listed.runners[n].(pc := Judged(s, clock))] == Listed(s, Judged(s, clock)).runners;
  }

  lemma PassRetires(s: Session, clock: Option<Reason>)
    requires !Ended(s.db) && Judged(s, clock).Retiring?
    ensures Run(s, [MaintainReads, MaintainJudges(|s.runners|, clock)] + [Retire(|s.runners|)]).db
            == RetireTx(s.db, s.db.row.fence, Judged(s, clock).end, Judged(s, clock).reason)
  {
    var pass := [MaintainReads, MaintainJudges(|s.runners|, clock)];
    RunSplits(s, pass, [Retire(|s.runners|)]);
    PassJudges(s, clock);
    var judged := Run(s, pass);
    assert [Retire(|s.runners|)][1..] == [];
    assert Run(judged, [Retire(|s.runners|)]) == Next(judged, Retire(|s.runners|));
  }

  /** A pass that lists a session at work, while its job has failed: the session is interrupted. */
  lemma FailedJobInterrupts(s: Session, clock: Option<Reason>)
    requires !Ended(s.db) && !s.db.row.released && s.db.job.status == JobFailed && s.db.row.stop == None
    ensures
      var t := Run(s, [MaintainReads, MaintainJudges(|s.runners|, clock)] + [Retire(|s.runners|)]);
      && t.db.row.state == Interrupted && t.db.row.stop == Some(WorkerInterrupted)
      && t.db.settled == Some(s.db.row.maxCost) && EndsAll(s.db.commands, t.db.commands)
  {
    PassRetires(s, clock);
    RetireAnswers(s.db, s.db.row.fence, Interrupted, WorkerInterrupted);
  }

  /** A pass that finds a session waiting for a worker with a reason to stop ends it for that reason. */
  lemma WaitingSessionExpires(s: Session, clock: Option<Reason>, reason: Reason)
    requires !Ended(s.db) && !s.db.row.released && s.db.job.status == JobPending
    requires s.db.row.stop == Some(reason) || (s.db.row.stop == None && clock == Some(reason))
    ensures
      var t := Run(s, [MaintainReads, MaintainJudges(|s.runners|, clock)] + [Retire(|s.runners|)]);
      && t.db.row.state == (if s.db.row.stop.Some? then EndedBy(reason) else Expired) && t.db.row.stop == Some(reason)
      && t.db.settled == Some(if SomeRunning(s.db.commands) then s.db.row.maxCost else s.db.costUsed)
  {
    PassRetires(s, clock);
    RetireAnswers(s.db, s.db.row.fence, Expired, reason);
    match reason
    case ClientCancelled =>
    case ClientClosed =>
    case _ =>
  }

  /** A pass over a session whose job is at work, or that waits without a reason to stop, does nothing. */
  lemma HealthySessionIsLeft(s: Session, clock: Option<Reason>)
    requires !Ended(s.db) && s.db.job.status != JobFailed
    requires s.db.job.status == JobPending ==> s.db.row.stop == None && clock == None
    ensures Run(s, [MaintainReads, MaintainJudges(|s.runners|, clock)])
            == s.(runners := s.runners + [Runner(s.db.row.fence, 0, None, Gone, true)])
  {
    PassJudges(s, clock);
  }
}
