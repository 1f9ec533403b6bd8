/**
 One research session together with every coroutine that ever works on it, as a
 transition system. Each event is one database transaction or one local step of a
 runner; an event that is not enabled leaves the session unchanged, so every
 sequence of events is a run and every interleaving of the transactions is covered.
 */
module SessionProtocol {
  import opened Prelude
  import opened SessionStore

  /** The live environment a runner holds; its episode and how many steps it has taken. */
  datatype Env = Env(episode: nat, stepIndex: nat)

  /** Where a runner's coroutine stands between two transactions. */
  datatype Pc =
    | Starting
    | Looping
    | Claiming
    | Executing(c: nat)
    | Attaching(c: nat)
    | Completing(c: nat, status: Status, state: Option<State>, index: Option<nat>)
    | Retiring(end: State, reason: Reason)
    | Inspecting(stop: Option<Reason>)
    | Gone

  /** A claimed job's coroutine, or one pass of the maintenance loop over this session. */
  datatype Runner = Runner(fence: nat, worker: nat, env: Option<Env>, pc: Pc, maintainer: bool)

  /** `acted` logs the command of every action sent to an environment. */
  datatype Session = Session(db: Durable, runners: seq<Runner>, acted: seq<nat>, episodes: nat)

  datatype Event =
    | Submit(request: Request)
    | Usage(cost: real)
    | ClaimJob(worker: nat, maxAttempts: nat)
    | LeaseExpires
    | RenewLease(worker: nat)
    | ReapJob(maxAttempts: nat)
    | FinishJob(worker: nat)
    | FailOrRetryJob(worker: nat, maxAttempts: nat)
    | Begin(i: nat)
    | Poll(i: nat, clock: Option<Reason>)
    | Claim(i: nat)
    | Internal(i: nat, kind: Kind, payload: Payload)
    | Act(i: nat, done: bool)
    | ActRaises(i: nat)
    | StartReset(i: nat, admitted: bool)
    | Attach(i: nat)
    | Commit(i: nat)
    | RunEnds(i: nat, reason: Reason)
    | Abort(i: nat, reason: Reason)
    | Crash(i: nat)
    | MaintainReads
    | MaintainJudges(i: nat, clock: Option<Reason>)
    | Retire(i: nat)

  function At(s: Session, i: nat): Pc {
    if i < |s.runners| then s.runners[i].pc else Gone
  }

  function Move(s: Session, i: nat, pc: Pc): Session
    requires i < |s.runners|
  {
    s.(runners := s.runners[i := s.runners[i].(pc := pc)])
  }

  /** Any exception inside the command loop ends in a retirement as interrupted. */
  function Raise(s: Session, i: nat): Session
    requires i < |s.runners|
  {
    Move(s, i, Retiring(Interrupted, ExecutionInterrupted))
  }

  predicate SelfDriven(d: Durable) {
    d.row.reproduction || d.row.mode == Managed
  }

  /** `stop_reason`: a recorded reason wins over what the clock says. */
  function StopReason(stop: Option<Reason>, clock: Option<Reason>): Option<Reason> {
    if stop.Some? then stop else clock
  }

  function EndFor(reason: Reason): State {
    if reason == ClientCancelled then Cancelled else if reason == ClientClosed then Closed else Expired
  }

  // ---------------------------------------------------------------- events

  function ClaimJobNext(s: Session, worker: nat, maxAttempts: nat): Session {
    if !Claimable(s.db.job, maxAttempts) then s
    else
      var job := ClaimJobTx(s.db.job, worker);
      s.(db := s.db.(job := job),
         runners := s.runners + [Runner(job.attempts, worker, None, Starting, false)])
  }

  function BeginNext(s: Session, i: nat): Session {
    if At(s, i) != Starting then s
    else
      var r := s.runners[i];
      var pc := if Terminal(s.db.row.state) then Gone
                else if InterruptedStart(s.db, r.fence) then Retiring(Interrupted, WorkerInterrupted)
                else Looping;
      Move(s.(db := BeginTx(s.db, r.fence, r.worker)), i, pc)
  }

  function PollNext(s: Session, i: nat, clock: Option<Reason>): Session {
    if At(s, i) != Looping || SelfDriven(s.db) then s
    else
      match StopReason(s.db.row.stop, clock)
      case Some(reason) => Move(s, i, Retiring(EndFor(reason), reason))
      case None => Move(s, i, Claiming)
  }

  function ClaimNext(s: Session, i: nat): Session {
    if At(s, i) != Claiming || SelfDriven(s.db) then s
    else if !FenceOk(s.db, s.runners[i].fence) then Raise(s, i)
    else
      match FirstPending(s.db.commands)
      case None => Move(s, i, Looping)
      case Some(c) => Move(s.(db := ClaimTx(s.db, s.runners[i].fence)), i, Executing(c))
  }

  function InternalNext(s: Session, i: nat, kind: Kind, payload: Payload): Session {
    if At(s, i) != Looping || !SelfDriven(s.db) || Ends(kind) then s
    else if !FenceOk(s.db, s.runners[i].fence) then Raise(s, i)
    else Move(s.(db := InternalTx(s.db, s.runners[i].fence, kind, payload)), i, Executing(|s.db.commands|))
  }

  /** The guard of a step: an environment, an active row, the row's episode and its next index. */
  predicate StepAdmitted(d: Durable, r: Runner, c: nat) {
    && c < |d.commands|
    && r.env.Some?
    && d.row.state == Active
    && d.row.episode == d.commands[c].payload.episode
    && d.commands[c].payload.expected == d.row.stepIndex + 1
  }

  predicate ExecutingKind(s: Session, i: nat, kind: Kind) {
    At(s, i).Executing? && At(s, i).c < |s.db.commands| && s.db.commands[At(s, i).c].kind == kind
  }

  function Stepped(env: Option<Env>): Option<Env> {
    match env
    case None => None
    case Some(e) => Some(e.(stepIndex := e.stepIndex + 1))
  }

  function ActNext(s: Session, i: nat, done: bool): Session {
    if !ExecutingKind(s, i, Step) then s
    else
      var r := s.runners[i];
      var c := r.pc.c;
      if !StepAdmitted(s.db, r, c) then Move(s, i, Completing(c, Refused, None, None))
      else
        var env := Stepped(r.env);
        var pc := Completing(c, Finished, Some(if done then EpisodeDone else Active), Some(env.value.stepIndex));
        s.(runners := s.runners[i := r.(env := env, pc := pc)], acted := s.acted + [c])
  }

  function ActRaisesNext(s: Session, i: nat): Session {
    if !ExecutingKind(s, i, Step) || !StepAdmitted(s.db, s.runners[i], At(s, i).c) then s
    else
      var r := s.runners[i];
      s.(runners := s.runners[i := r.(env := Stepped(r.env), pc := Retiring(Interrupted, ExecutionInterrupted))],
         acted := s.acted + [r.pc.c])
  }

  function StartResetNext(s: Session, i: nat, admitted: bool): Session {
    if !ExecutingKind(s, i, Reset) then s
    else
      var r := s.runners[i];
      if !admitted then
        s.(runners := s.runners[i := r.(env := None, pc := Completing(r.pc.c, Refused, Some(EpisodeDone), None))])
      else
        s.(runners := s.runners[i := r.(env := Some(Env(s.episodes, 0)), pc := Attaching(r.pc.c))],
           episodes := s.episodes + 1)
  }

  function AttachNext(s: Session, i: nat): Session {
    if !At(s, i).Attaching? || s.runners[i].env.None? then s
    else if !FenceOk(s.db, s.runners[i].fence) then Raise(s, i)
    else
      Move(s.(db := AttachTx(s.db, s.runners[i].env.value.episode)), i,
           Completing(At(s, i).c, Finished, Some(Active), Some(0)))
  }

  function CommitNext(s: Session, i: nat): Session {
    if !At(s, i).Completing? then s
    else
      var r := s.runners[i];
      var pc := r.pc;
      if !CanComplete(s.db, r.fence, pc.c) then Raise(s, i)
      else
        var env := if pc.state == Some(EpisodeDone) then None else r.env;
        s.(db := CompleteTx(s.db, pc.c, pc.status, pc.state, pc.index),
           runners := s.runners[i := r.(env := env, pc := Looping)])
  }

  function RunEndsNext(s: Session, i: nat, reason: Reason): Session {
    if At(s, i) == Looping && SelfDriven(s.db) && reason in {ReproductionCompleted, ManagedCompleted, ModelBudgetExhausted}
    then Move(s, i, Retiring(Completed, reason))
    else s
  }

  predicate Working(pc: Pc) {
    pc.Looping? || pc.Claiming? || pc.Executing? || pc.Attaching? || pc.Completing?
  }

  /**
   Any exception or cancellation while the loop runs; the environment stays with the runner. A close or
   cancel that was claimed like any command ends here: its submission set the stop reason, and the guard
   around execution raises on that before the command begins.
   */
  function AbortNext(s: Session, i: nat, reason: Reason): Session {
    if Working(At(s, i)) && reason in {WorkerInterrupted, ExecutionInterrupted}
    then Move(s, i, Retiring(Interrupted, reason))
    else s
  }

  function CrashNext(s: Session, i: nat): Session {
    if i < |s.runners| then s.(runners := s.runners[i := s.runners[i].(pc := Gone, env := None)]) else s
  }

  /** Maintenance first lists the unfinished sessions, remembering each row as it was then. */
  function MaintainReadsNext(s: Session): Session {
    if Terminal(s.db.row.state) then s
    else s.(runners := s.runners + [Runner(s.db.row.fence, 0, None, Inspecting(s.db.row.stop), true)])
  }

  function MaintainJudgesNext(s: Session, i: nat, clock: Option<Reason>): Session {
    if !At(s, i).Inspecting? then s
    else
      var reason := StopReason(At(s, i).stop, clock);
      if s.db.job.status == JobFailed then Move(s, i, Retiring(Interrupted, WorkerInterrupted))
      else if s.db.job.status == JobPending && reason.Some? then Move(s, i, Retiring(Expired, reason.value))
      else Move(s, i, Gone)
  }

  function RetireNext(s: Session, i: nat): Session {
    if !At(s, i).Retiring? then s
    else
      var r := s.runners[i];
      s.(db := RetireTx(s.db, r.fence, r.pc.end, r.pc.reason),
         runners := s.runners[i := r.(env := None, pc := Gone)])
  }

  function Next(s: Session, e: Event): Session {
    match e
    case Submit(q) => s.(db := SubmitTx(s.db, q).0)
    case Usage(cost) => if cost >= 0.0 then s.(db := s.db.(costUsed := s.db.costUsed + cost)) else s
    case ClaimJob(w, m) => ClaimJobNext(s, w, m)
    case LeaseExpires => s.(db := s.db.(job := s.db.job.(expired := true)))
    case RenewLease(w) => s.(db := s.db.(job := RenewTx(s.db.job, w)))
    case ReapJob(m) => s.(db := s.db.(job := ReapJobTx(s.db.job, m)))
    case FinishJob(w) => s.(db := s.db.(job := FinishJobTx(s.db.job, w)))
    case FailOrRetryJob(w, m) => s.(db := s.db.(job := FailOrRetryTx(s.db.job, w, m)))
    case Begin(i) => BeginNext(s, i)
    case Poll(i, clock) => PollNext(s, i, clock)
    case Claim(i) => ClaimNext(s, i)
    case Internal(i, kind, payload) => InternalNext(s, i, kind, payload)
    case Act(i, done) => ActNext(s, i, done)
    case ActRaises(i) => ActRaisesNext(s, i)
    case StartReset(i, admitted) => StartResetNext(s, i, admitted)
    case Attach(i) => AttachNext(s, i)
    case Commit(i) => CommitNext(s, i)
    case RunEnds(i, reason) => RunEndsNext(s, i, reason)
    case Abort(i, reason) => AbortNext(s, i, reason)
    case Crash(i) => CrashNext(s, i)
    case MaintainReads => MaintainReadsNext(s)
    case MaintainJudges(i, clock) => MaintainJudgesNext(s, i, clock)
    case Retire(i) => RetireNext(s, i)
  }

  function Run(s: Session, es: seq<Event>): Session
    decreases |es|
  {
    if es == [] then s else Run(Next(s, es[0]), es[1..])
  }

  function Fresh(q: NewSession): Session {
    Session(FreshSession(q), [], [], 0)
  }
}
