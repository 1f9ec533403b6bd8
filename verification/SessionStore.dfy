/**
 The durable side of a research session: the rows a transaction under the owner
 lock reads and writes, and every such transaction as a function on them.
 One value of Durable gathers what one session owns: its row, its job lease, its
 campaign's cost and its commands in creation order.
 */
module SessionStore {
  import opened Prelude

  datatype State = Queued | Ready | Active | EpisodeDone
    | Closed | Cancelled | Expired | Interrupted | Failed | Completed

  predicate Terminal(s: State) {
    s in {Closed, Cancelled, Expired, Interrupted, Failed, Completed}
  }

  datatype Mode = External | Managed

  datatype Reason = ClientCancelled | ClientClosed | WallTimeLimit | HeartbeatExpired
    | WorkerInterrupted | ExecutionInterrupted | ReproductionCompleted
    | ManagedCompleted | ModelBudgetExhausted

  datatype Kind = Reset | Step | CloseSession | CancelSession

  predicate Ends(k: Kind) {
    k == CloseSession || k == CancelSession
  }

  datatype Status = Pending | Running | Finished | Refused | Dropped | Indeterminate

  predicate Live(s: Status) {
    s == Pending || s == Running
  }

  /** What execution reads of a request; content hashes stand for the rest. */
  datatype Payload = Payload(episode: Option<nat>, expected: nat, seed: Option<int>)

  /** Commands of the worker itself carry no client key. */
  datatype Command = Command(key: Option<nat>, hash: nat, kind: Kind, payload: Payload,
                             status: Status, fence: nat)

  datatype JobStatus = JobPending | Leased | JobCompleted | JobFailed

  /** `expired` is the comparison of the lease's expiry time with the clock. */
  datatype Job = Job(status: JobStatus, owner: Option<nat>, attempts: nat, expired: bool)

  datatype Row = Row(key: nat, hash: nat, maxCost: real, mode: Mode, evaluation: bool,
                     reproduction: bool, seed: int, state: State, episode: Option<nat>,
                     stepIndex: nat, fence: nat, worker: Option<nat>, stop: Option<Reason>,
                     released: bool)

  /** `settled` remembers what the ledger was charged when the reservation was released. */
  datatype Durable = Durable(row: Row, job: Job, costUsed: real, commands: seq<Command>,
                             settled: Option<real>)

  // ---------------------------------------------------------------- creation

  datatype NewSession = NewSession(key: nat, hash: nat, maxCost: real, mode: Mode,
                                   evaluation: bool, reproduction: bool, seed: int)

  function FreshSession(q: NewSession): Durable {
    Durable(Row(q.key, q.hash, q.maxCost, q.mode, q.evaluation, q.reproduction, q.seed,
                Queued, None, 0, 0, None, None, false),
            Job(JobPending, None, 0, false), 0.0, [], None)
  }

  datatype Owner = Owner(reserved: real, spent: real)

  datatype Quota = Quota(maxSessions: nat, costLimit: real)

  datatype CreateReply = Created(index: nat) | SameRequest(index: nat) | RequestConflict
    | SessionQuota | CostQuota | UnknownReference

  function KeyedRow(rows: seq<Durable>, key: nat): (r: Option<nat>)
    ensures r.Some? ==> r.value < |rows| && rows[r.value].row.key == key
    ensures r.None? ==> forall i :: 0 <= i < |rows| ==> rows[i].row.key != key
  {
    if rows == [] then None
    else
      var n := |rows| - 1;
      if rows[n].row.key == key then Some(n) else KeyedRow(rows[..n], key)
  }

  /** How many sessions have not ended. */
  function LiveRows(rows: seq<Durable>): nat {
    if rows == [] then 0
    else LiveRows(rows[..|rows| - 1]) + (if Terminal(rows[|rows| - 1].row.state) then 0 else 1)
  }

  /** `found` says whether the bundle, run, runtime and policy the request names exist. */
  function CreateOutcome(quota: Quota, owner: Owner, rows: seq<Durable>, q: NewSession, found: bool): CreateReply {
    match KeyedRow(rows, q.key)
    case Some(i) => if rows[i].row.hash == q.hash then SameRequest(i) else RequestConflict
    case None =>
      if LiveRows(rows) >= quota.maxSessions then SessionQuota
      else if owner.spent + owner.reserved + q.maxCost > quota.costLimit then CostQuota
      else if !found then UnknownReference
      else Created(|rows|)
  }

  /** `release`: clamp the reservation at zero and charge the settlement, once. */
  function Settle(owner: Owner, before: Durable, after: Durable): Owner {
    if before.row.released || !after.row.released || after.settled.None? then owner
    else Owner(Max(0.0, owner.reserved - before.row.maxCost), owner.spent + after.settled.value)
  }

  // ---------------------------------------------------------------- client commands

  datatype Request = Request(key: nat, hash: nat, kind: Kind, payload: Payload,
                             generationAccepted: bool)

  datatype Reply = Accepted(index: nat) | Replayed(index: nat) | KeyConflict
    | SessionTerminal | ManagedOwnsActions | CommandInProgress | ResetRequired
    | UnexpectedStepIndex | GenerationMismatch | EpisodeAlreadyExecuted | SeedPinned

  predicate HasKey(c: Command, key: nat) {
    c.key == Some(key)
  }

  /** The row found for a request key: keys are unique within a session. */
  function Find(cs: seq<Command>, key: nat): (r: Option<nat>)
    ensures r.Some? ==> r.value < |cs| && HasKey(cs[r.value], key)
    ensures r.None? ==> forall i :: 0 <= i < |cs| ==> !HasKey(cs[i], key)
  {
    if cs == [] then None
    else
      var n := |cs| - 1;
      if HasKey(cs[n], key) then Some(n) else Find(cs[..n], key)
  }

  predicate AnyLive(cs: seq<Command>) {
    exists i :: 0 <= i < |cs| && Live(cs[i].status)
  }

  /** Every refusal of `submit`, in the order in which the checks are made. */
  function Refusal(d: Durable, q: Request): Option<Reply> {
    if Terminal(d.row.state) && !Ends(q.kind) then Some(SessionTerminal)
    else if d.row.mode == Managed && q.kind in {Reset, Step} then Some(ManagedOwnsActions)
    else if AnyLive(d.commands) && !Ends(q.kind) then Some(CommandInProgress)
    else if q.kind == Step && (d.row.state != Active || d.row.episode != q.payload.episode) then Some(ResetRequired)
    else if q.kind == Step && d.row.stepIndex + 1 != q.payload.expected then Some(UnexpectedStepIndex)
    else if q.kind == Step && !q.generationAccepted then Some(GenerationMismatch)
    else if q.kind == Reset && d.row.evaluation && d.row.episode.Some? then Some(EpisodeAlreadyExecuted)
    else if q.kind == Reset && d.row.evaluation && q.payload.seed.Some? && q.payload.seed != Some(d.row.seed)
    then Some(SeedPinned)
    else None
  }

  function SubmitTx(d: Durable, q: Request): (Durable, Reply) {
    match Find(d.commands, q.key)
    case Some(i) => (d, if d.commands[i].hash == q.hash then Replayed(i) else KeyConflict)
    case None =>
      match Refusal(d, q)
      case Some(why) => (d, why)
      case None =>
        var status := if Terminal(d.row.state) then Finished else Pending;
        var stop := if Terminal(d.row.state) || !Ends(q.kind) then d.row.stop
                    else Some(if q.kind == CancelSession then ClientCancelled else ClientClosed);
        var c := Command(Some(q.key), q.hash, q.kind, q.payload, status, 0);
        (d.(row := d.row.(stop := stop), commands := d.commands + [c]), Accepted(|d.commands|))
  }

  // ---------------------------------------------------------------- worker transactions

  predicate FenceOk(d: Durable, fence: nat) {
    d.row.fence == fence && d.job.owner == d.row.worker && d.job.status == Leased && !d.job.expired
  }

  predicate IsPending(c: Command) {
    c.status == Pending
  }

  /** The oldest pending command. */
  function FirstPending(cs: seq<Command>): (r: Option<nat>)
    ensures r.Some? ==> r.value < |cs| && IsPending(cs[r.value])
    ensures r.Some? ==> forall i :: 0 <= i < r.value ==> !IsPending(cs[i])
    ensures r.None? ==> forall i :: 0 <= i < |cs| ==> !IsPending(cs[i])
  {
    if cs == [] then None
    else
      match FirstPending(cs[..|cs| - 1])
      case Some(i) => Some(i)
      case None => if IsPending(cs[|cs| - 1]) then Some(|cs| - 1) else None
  }

  function SetStatus(cs: seq<Command>, c: nat, status: Status): seq<Command>
    requires c < |cs|
  {
    cs[c := cs[c].(status := status)]
  }

  function ClaimTx(d: Durable, fence: nat): Durable
    requires FenceOk(d, fence)
  {
    match FirstPending(d.commands)
    case None => d
    case Some(c) => d.(commands := d.commands[c := d.commands[c].(status := Running, fence := fence)])
  }

  function InternalTx(d: Durable, fence: nat, kind: Kind, payload: Payload): Durable
    requires FenceOk(d, fence)
  {
    d.(commands := d.commands + [Command(None, 0, kind, payload, Running, fence)])
  }

  /** `complete` applies only to a running command under a valid fence; otherwise it raises. */
  predicate CanComplete(d: Durable, fence: nat, c: nat) {
    FenceOk(d, fence) && c < |d.commands| && d.commands[c].status == Running
  }

  function CompleteTx(d: Durable, c: nat, status: Status, state: Option<State>, index: Option<nat>): Durable
    requires c < |d.commands|
  {
    d.(commands := SetStatus(d.commands, c, status),
       row := d.row.(state := if state.Some? then state.value else d.row.state,
                     stepIndex := if index.Some? then index.value else d.row.stepIndex))
  }

  function AttachTx(d: Durable, episode: nat): Durable {
    d.(row := d.row.(episode := Some(episode)))
  }

  /** Taking over: the fence becomes the claim's attempt number. */
  function BeginTx(d: Durable, attempt: nat, worker: nat): Durable {
    if Terminal(d.row.state) then d
    else d.(row := d.row.(fence := attempt, worker := Some(worker), state := Ready))
  }

  predicate InterruptedStart(d: Durable, attempt: nat) {
    d.row.fence > 0 || attempt > 1
  }

  // ---------------------------------------------------------------- retirement

  function EndStatus(c: Command): Status {
    if !Live(c.status) then c.status
    else if Ends(c.kind) then Finished
    else if c.status == Running then Indeterminate
    else Dropped
  }

  function EndCommand(c: Command): Command {
    c.(status := EndStatus(c))
  }

  function EndCommands(cs: seq<Command>): (r: seq<Command>)
    ensures |r| == |cs|
    ensures forall i :: 0 <= i < |cs| ==> r[i] == EndCommand(cs[i])
  {
    if cs == [] then [] else EndCommands(cs[..|cs| - 1]) + [EndCommand(cs[|cs| - 1])]
  }

  predicate AnyRunning(cs: seq<Command>) {
    exists i :: 0 <= i < |cs| && cs[i].status == Running
  }

  /** A client's close or cancel overrides the state and reason the retiring party asked for. */
  function EndState(stop: Option<Reason>, state: State): State {
    if stop == Some(ClientClosed) then Closed
    else if stop == Some(ClientCancelled) then Cancelled
    else state
  }

  function EndReason(stop: Option<Reason>, reason: Reason): Reason {
    if stop == Some(ClientClosed) || stop == Some(ClientCancelled) then stop.value else reason
  }

  predicate RetireApplies(d: Durable, fence: nat) {
    d.row.fence == fence && !Terminal(d.row.state)
  }

  function RetireCharge(d: Durable, state: State): real {
    if AnyRunning(d.commands) || EndState(d.row.stop, state) == Interrupted then d.row.maxCost
    else d.costUsed
  }

  function ReleaseTx(d: Durable, charge: real): Durable {
    if d.row.released then d else d.(row := d.row.(released := true), settled := Some(charge))
  }

  /** The row as it ends, before its reservation is released. */
  function EndedRow(d: Durable, state: State, reason: Reason): Durable {
    d.(row := d.row.(state := EndState(d.row.stop, state), stop := Some(EndReason(d.row.stop, reason))),
       commands := EndCommands(d.commands))
  }

  function RetireTx(d: Durable, fence: nat, state: State, reason: Reason): Durable {
    if RetireApplies(d, fence) then ReleaseTx(EndedRow(d, state, reason), RetireCharge(d, state)) else d
  }

  // ---------------------------------------------------------------- the job lease

  predicate Claimable(j: Job, maxAttempts: nat) {
    j.attempts < maxAttempts && (j.status == JobPending || (j.status == Leased && j.expired))
  }

  function ClaimJobTx(j: Job, worker: nat): Job {
    Job(Leased, Some(worker), j.attempts + 1, false)
  }

  function ReapJobTx(j: Job, maxAttempts: nat): Job {
    if j.status == Leased && j.expired && j.attempts >= maxAttempts then Job(JobFailed, None, j.attempts, false)
    else j
  }

  function RenewTx(j: Job, worker: nat): Job {
    if j.owner == Some(worker) && j.status == Leased then j.(expired := false) else j
  }

  function FinishJobTx(j: Job, worker: nat): Job {
    if j.owner == Some(worker) then Job(JobCompleted, None, j.attempts, false) else j
  }

  function FailOrRetryTx(j: Job, worker: nat, maxAttempts: nat): Job {
    if j.owner != Some(worker) || j.status != Leased then j
    else if j.attempts >= maxAttempts then Job(JobFailed, None, j.attempts, false)
    else Job(JobPending, None, j.attempts, false)
  }
}
