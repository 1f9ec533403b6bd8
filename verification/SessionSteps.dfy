/**
 Step indices: the completed step commands of every episode carry 1, 2, ... in creation
 order, and an active row agrees with its runner's environment and with that count.
 */
module SessionSteps {
  import opened Prelude
  import opened SessionStore
  import opened SessionProtocol
  import opened CompletedSteps
  import opened SessionInvariants

  function Count(d: Durable, episode: nat): nat {
    |Indices(d.commands, episode)|
  }

  /** Row, environment and command history tell the same story. */
  predicate Synced(d: Durable, r: Runner) {
    d.row.state == Active ==>
      && d.row.episode.Some?
      && r.env == Some(Env(d.row.episode.value, d.row.stepIndex))
      && Count(d, d.row.episode.value) == d.row.stepIndex
  }

  /** A reset or step is running. */
  predicate Busy(cs: seq<Command>) {
    exists c :: 0 <= c < |cs| && cs[c].status == Running && !Ends(cs[c].kind)
  }

  predicate RunsNow(cs: seq<Command>, c: nat, kind: Kind) {
    c < |cs| && cs[c].status == Running && cs[c].kind == kind
  }

  predicate FreshEnv(d: Durable, env: Option<Env>) {
    env.Some? && env.value.stepIndex == 0 && Count(d, env.value.episode) == 0
  }

  /** The outcome of an admitted step, waiting to be committed. */
  predicate StepOutcome(d: Durable, env: Option<Env>, c: nat, state: Option<State>, index: Option<nat>)
    requires c < |d.commands|
  {
    && env.Some?
    && NoneAfter(d.commands, c)
    && d.row.episode == Some(env.value.episode) == d.commands[c].payload.episode
    && index == Some(env.value.stepIndex)
    && d.commands[c].payload.expected == env.value.stepIndex == Count(d, env.value.episode) + 1
    && (state == Some(Active) || state == Some(EpisodeDone))
  }

  predicate ResetOutcome(d: Durable, env: Option<Env>, state: Option<State>, index: Option<nat>) {
    FreshEnv(d, env) && d.row.episode == Some(env.value.episode) && state == Some(Active) && index == Some(0)
  }

  /** The session ended while the command was held, and took it along. */
  predicate Overtaken(d: Durable, c: nat) {
    Terminal(d.row.state) && c < |d.commands| && d.commands[c].status != Running
  }

  predicate OutcomeOk(d: Durable, r: Runner) {
    r.pc.Completing? && !Overtaken(d, r.pc.c) ==>
      var pc := r.pc;
      if RunsNow(d.commands, pc.c, Step) then
        if pc.status == Finished then StepOutcome(d, r.env, pc.c, pc.state, pc.index)
        else pc.status == Refused && pc.state.None? && pc.index.None? && Synced(d, r)
      else
        && RunsNow(d.commands, pc.c, Reset)
        && if pc.status == Finished then ResetOutcome(d, r.env, pc.state, pc.index)
           else pc.status == Refused && pc.state == Some(EpisodeDone) && pc.index.None?
  }

  predicate PcOk(d: Durable, r: Runner) {
    match r.pc
    case Looping => Synced(d, r)
    case Claiming => Synced(d, r)
    case Executing(c) =>
      Overtaken(d, c)
      || (c < |d.commands| && d.commands[c].status == Running && NoneAfter(d.commands, c) && Synced(d, r))
    case Attaching(c) => Overtaken(d, c) || (RunsNow(d.commands, c, Reset) && FreshEnv(d, r.env))
    case Completing(_, _, _, _) => OutcomeOk(d, r)
    case Retiring(_, _) => Busy(d.commands) || Synced(d, r)
    case _ => true
  }

  /** The runner whose fence is the row's. */
  predicate Current(d: Durable, r: Runner) {
    !r.maintainer && r.fence == d.row.fence && !r.pc.Starting? && !r.pc.Gone?
  }

  predicate RowSynced(d: Durable) {
    d.row.state == Active ==>
      Busy(d.commands) || (d.row.episode.Some? && Count(d, d.row.episode.value) == d.row.stepIndex)
  }

  ghost predicate AllCount(cs: seq<Command>) {
    forall episode: nat :: Counts(Indices(cs, episode))
  }

  predicate KnownEpisodes(d: Durable, episodes: nat) {
    && (d.row.episode.Some? ==> d.row.episode.value < episodes)
    && (forall c :: 0 <= c < |d.commands| && FinishedStep(d.commands[c]) ==>
          d.commands[c].payload.episode.Some? && d.commands[c].payload.episode.value < episodes)
  }

  ghost predicate RowsOk(d: Durable, episodes: nat) {
    AllCount(d.commands) && KnownEpisodes(d, episodes) && RowSynced(d)
  }

  predicate RunnerOk(d: Durable, episodes: nat, r: Runner) {
    && (r.env.Some? ==> r.env.value.episode < episodes)
    && (Current(d, r) ==> PcOk(d, r))
  }

  ghost predicate StepInv(s: Session) {
    && RowsOk(s.db, s.episodes)
    && forall i :: 0 <= i < |s.runners| ==> RunnerOk(s.db, s.episodes, s.runners[i])
  }

  // ---------------------------------------------------------------- rows that keep their completed steps

  lemma KeepCounts(cs: seq<Command>, ds: seq<Command>)
    requires SameSteps(cs, ds)
    ensures forall episode: nat :: Indices(ds, episode) == Indices(cs, episode)
  {
    forall episode: nat ensures Indices(ds, episode) == Indices(cs, episode) {
      IndicesSame(cs, ds, episode);
    }
  }

  lemma AppendCounts(cs: seq<Command>, c: Command)
    requires !FinishedStep(c)
    ensures forall episode: nat :: Indices(cs + [c], episode) == Indices(cs, episode)
  {
    forall episode: nat ensures Indices(cs + [c], episode) == Indices(cs, episode) {
      IndicesAppend(cs, c, episode);
    }
  }

  /** The transaction leaves state, episode and index alone and adds at most an unfinished command. */
  predicate Quiet(d: Durable, t: Durable) {
    && t.row.state == d.row.state && t.row.episode == d.row.episode && t.row.stepIndex == d.row.stepIndex
    && t.row.fence == d.row.fence
    && (t.commands == d.commands || (|t.commands| == |d.commands| + 1 && t.commands == d.commands + [t.commands[|d.commands|]]
                                     && !FinishedStep(t.commands[|d.commands|])))
  }

  lemma QuietCounts(d: Durable, t: Durable)
    requires Quiet(d, t)
    ensures forall episode: nat :: Indices(t.commands, episode) == Indices(d.commands, episode)
    ensures Busy(d.commands) ==> Busy(t.commands)
  {
    if t.commands != d.commands {
      AppendCounts(d.commands, t.commands[|d.commands|]);
      if Busy(d.commands) {
        var c :| 0 <= c < |d.commands| && d.commands[c].status == Running && !Ends(d.commands[c].kind);
        assert t.commands[c] == d.commands[c];
      }
    }
  }

  lemma QuietRows(d: Durable, t: Durable, episodes: nat)
    requires Quiet(d, t) && RowsOk(d, episodes)
    ensures RowsOk(t, episodes)
  {
    QuietCounts(d, t);
  }

  lemma QuietPc(d: Durable, t: Durable, r: Runner)
    requires Quiet(d, t) && PcOk(d, r)
    ensures PcOk(t, r)
  {
    QuietCounts(d, t);
  }

  lemma QuietKeeps(d: Durable, t: Durable, episodes: nat)
    requires Quiet(d, t) && RowsOk(d, episodes)
    ensures RowsOk(t, episodes)
    ensures forall r: Runner :: PcOk(d, r) ==> PcOk(t, r)
  {
    QuietRows(d, t, episodes);
    forall r: Runner | PcOk(d, r) ensures PcOk(t, r) {
      QuietPc(d, t, r);
    }
  }

  lemma RowsKeep(s: Session, e: Event)
    requires StepInv(s) && RowsOnly(e)
    ensures StepInv(Next(s, e))
  {
    var t := Next(s, e);
    RowsMoves(s, e);
    assert Quiet(s.db, t.db);
    QuietKeeps(s.db, t.db, s.episodes);
  }

  lemma NewRunnerKeeps(s: Session, e: Event)
    requires StepInv(s) && (e.ClaimJob? || e.MaintainReads?)
    ensures StepInv(Next(s, e))
  {
    var t := Next(s, e);
    assert Quiet(s.db, t.db);
    QuietKeeps(s.db, t.db, s.episodes);
  }

  lemma BeginKeeps(s: Session, i: nat)
    requires StepInv(s) && FenceInv(s)
    ensures StepInv(BeginNext(s, i))
  {
    var t := BeginNext(s, i);
    if t != s && !Terminal(s.db.row.state) {
      forall j | 0 <= j < |t.runners| ensures RunnerOk(t.db, t.episodes, t.runners[j]) {
        if j != i {
          assert !s.runners[j].maintainer ==> s.runners[j].fence != s.runners[i].fence;
        }
      }
    }
  }

  // ---------------------------------------------------------------- the current runner moves

  /** What a move of the current runner must re-establish, for the rows and for that runner. */
  ghost predicate MoveOk(t: Session, i: nat) {
    i < |t.runners| && RowsOk(t.db, t.episodes) && RunnerOk(t.db, t.episodes, t.runners[i])
  }

  predicate Leads(s: Session, i: nat) {
    i < |s.runners| && Current(s.db, s.runners[i])
  }

  lemma LeaderLocal(s: Session, e: Event)
    requires StepInv(s) && FenceInv(s) && OfRunner(e) && Leads(s, Index(e))
    requires e.Poll? || e.RunEnds? || e.Abort? || e.Crash? || e.MaintainJudges?
    ensures MoveOk(Next(s, e), Index(e))
  {
    var r := s.runners[Index(e)];
    assert RunnerOk(s.db, s.episodes, r);
    assert RunnerShape(r, s.db.job.attempts);
    if e.Poll? || e.RunEnds? {
      LeaderRests(s, e);
    } else if Held(r).Some? {
      var c := Held(r).value;
      assert !Overtaken(s.db, c) ==> s.db.commands[c].status == Running;
    }
  }

  lemma LeaderRests(s: Session, e: Event)
    requires StepInv(s) && FenceInv(s) && OfRunner(e) && Leads(s, Index(e))
    requires e.Poll? || e.RunEnds?
    ensures MoveOk(Next(s, e), Index(e))
  {
    assert RunnerOk(s.db, s.episodes, s.runners[Index(e)]);
  }

  lemma LeaderActs(s: Session, e: Event)
    requires StepInv(s) && (e.Act? || e.ActRaises?) && Leads(s, Index(e))
    ensures MoveOk(Next(s, e), Index(e))
  {
    assert RunnerOk(s.db, s.episodes, s.runners[Index(e)]);
  }

  lemma StatusKeeps(d: Durable, c: nat, status: Status, fence: nat)
    requires c < |d.commands| && status != Finished && !FinishedStep(d.commands[c])
    ensures
      var ds := d.commands[c := d.commands[c].(status := status, fence := fence)];
      SameSteps(d.commands, ds) && forall episode: nat :: Indices(ds, episode) == Indices(d.commands, episode)
  {
    KeepCounts(d.commands, d.commands[c := d.commands[c].(status := status, fence := fence)]);
  }

  lemma LeaderClaims(s: Session, i: nat)
    requires StepInv(s) && OrderInv(s.db) && Leads(s, i)
    ensures MoveOk(ClaimNext(s, i), i)
  {
    var t := ClaimNext(s, i);
    assert RunnerOk(s.db, s.episodes, s.runners[i]);
    if At(t, i).Executing? && t != s {
      var c := At(t, i).c;
      StatusKeeps(s.db, c, Running, s.runners[i].fence);
      assert NoneAfter(t.db.commands, c);
      assert Busy(s.db.commands) ==> Busy(t.db.commands) by {
        if Busy(s.db.commands) {
          var b :| 0 <= b < |s.db.commands| && s.db.commands[b].status == Running && !Ends(s.db.commands[b].kind);
          assert t.db.commands[b].status == Running && !Ends(t.db.commands[b].kind);
        }
      }
    }
  }

  lemma LeaderInternal(s: Session, i: nat, kind: Kind, payload: Payload)
    requires StepInv(s) && Leads(s, i)
    ensures MoveOk(InternalNext(s, i, kind, payload), i)
  {
    var t := InternalNext(s, i, kind, payload);
    assert RunnerOk(s.db, s.episodes, s.runners[i]);
    QuietKeeps(s.db, t.db, s.episodes);
  }

  lemma LeaderResets(s: Session, i: nat, admitted: bool)
    requires StepInv(s) && Leads(s, i)
    ensures MoveOk(StartResetNext(s, i, admitted), i)
  {
    assert RunnerOk(s.db, s.episodes, s.runners[i]);
    IndicesEmpty(s.db.commands, s.episodes);
  }

  lemma LeaderAttaches(s: Session, i: nat)
    requires StepInv(s) && Leads(s, i)
    ensures MoveOk(AttachNext(s, i), i)
  {
    var t := AttachNext(s, i);
    assert RunnerOk(s.db, s.episodes, s.runners[i]);
    if t != s {
      var c := At(s, i).c;
      assert !Overtaken(s.db, c) ==> t.db.commands[c].status == Running && !Ends(t.db.commands[c].kind);
    }
  }

  /** Committing an admitted step appends exactly the next index to its episode's history. */
  lemma CommitStep(s: Session, i: nat)
    requires StepInv(s) && Leads(s, i) && At(s, i).Completing?
    requires CanComplete(s.db, s.runners[i].fence, At(s, i).c)
    requires s.db.commands[At(s, i).c].kind == Step && At(s, i).status == Finished
    ensures MoveOk(CommitNext(s, i), i)
  {
    var t := CommitNext(s, i);
    var c := At(s, i).c;
    var cs := s.db.commands;
    assert RunnerOk(s.db, s.episodes, s.runners[i]);
    assert RunsNow(cs, c, Step);
    forall episode: nat
      ensures Indices(t.db.commands, episode) ==
              Indices(cs, episode) + (if cs[c].payload.episode == Some(episode) then [cs[c].payload.expected] else [])
    {
      IndicesFinish(cs, c, episode);
    }
    assert AllCount(cs);
    forall episode: nat ensures Counts(Indices(t.db.commands, episode)) {
      assert Counts(Indices(cs, episode));
    }
  }

  lemma CommitOther(s: Session, i: nat)
    requires StepInv(s) && Leads(s, i) && At(s, i).Completing?
    requires CanComplete(s.db, s.runners[i].fence, At(s, i).c)
    requires s.db.commands[At(s, i).c].kind == Step ==> At(s, i).status != Finished
    ensures MoveOk(CommitNext(s, i), i)
  {
    var t := CommitNext(s, i);
    var c := At(s, i).c;
    assert RunnerOk(s.db, s.episodes, s.runners[i]);
    assert SameSteps(s.db.commands, t.db.commands);
    KeepCounts(s.db.commands, t.db.commands);
  }

  lemma LeaderCommits(s: Session, i: nat)
    requires StepInv(s) && Leads(s, i)
    ensures MoveOk(CommitNext(s, i), i)
  {
    assert RunnerOk(s.db, s.episodes, s.runners[i]);
    if At(s, i).Completing? && CanComplete(s.db, s.runners[i].fence, At(s, i).c) {
      if s.db.commands[At(s, i).c].kind == Step && At(s, i).status == Finished {
        CommitStep(s, i);
      } else {
        CommitOther(s, i);
      }
    }
  }

  /** Retirement finishes no step, and leaves a row nothing more is claimed about. */
  lemma RetireKeeps(s: Session, i: nat)
    requires StepInv(s) && PcsShaped(s)
    ensures StepInv(RetireNext(s, i))
  {
    var t := RetireNext(s, i);
    if t != s {
      var r := s.runners[i];
      RetireRows(s.db, s.episodes, r.fence, r.pc.end, r.pc.reason);
      forall j | 0 <= j < |t.runners| ensures RunnerOk(t.db, t.episodes, t.runners[j]) {
        assert RunnerOk(s.db, s.episodes, s.runners[j]);
        RetireRunner(s.db, s.episodes, r.fence, r.pc.end, r.pc.reason, s.runners[j]);
      }
    }
  }

  lemma RetireRows(d: Durable, episodes: nat, fence: nat, end: State, reason: Reason)
    requires RowsOk(d, episodes) && Terminal(end)
    ensures RowsOk(RetireTx(d, fence, end, reason), episodes)
  {
    var t := RetireTx(d, fence, end, reason);
    assert SameSteps(d.commands, t.commands);
    KeepCounts(d.commands, t.commands);
  }

  lemma RetireRunner(d: Durable, episodes: nat, fence: nat, end: State, reason: Reason, r: Runner)
    requires RunnerOk(d, episodes, r) && Terminal(end)
    ensures RunnerOk(RetireTx(d, fence, end, reason), episodes, r)
  {
    var t := RetireTx(d, fence, end, reason);
    if Current(t, r) && t != d {
      assert SameSteps(d.commands, t.commands);
      KeepCounts(d.commands, t.commands);
      assert Terminal(t.row.state);
    }
  }

  lemma LeaderMoves(s: Session, e: Event)
    requires StepInv(s) && FenceInv(s) && OrderInv(s.db) && OfRunner(e) && !e.Retire? && Leads(s, Index(e))
    ensures MoveOk(Next(s, e), Index(e))
  {
    match e
    case Act(_, _) => LeaderActs(s, e);
    case ActRaises(_) => LeaderActs(s, e);
    case Claim(i) => LeaderClaims(s, i);
    case Internal(i, kind, payload) => LeaderInternal(s, i, kind, payload);
    case StartReset(i, admitted) => LeaderResets(s, i, admitted);
    case Attach(i) => LeaderAttaches(s, i);
    case Commit(i) => LeaderCommits(s, i);
    case _ => LeaderLocal(s, e);
  }

  // ---------------------------------------------------------------- any other runner moves

  /** A runner that is not in charge changes no row. */
  lemma OtherEarly(s: Session, e: Event)
    requires (e.Poll? || e.Claim? || e.Internal? || e.Act? || e.ActRaises?) && !Leads(s, Index(e))
    requires FenceInv(s)
    ensures Next(s, e).db == s.db
  {
  }

  lemma OtherLate(s: Session, e: Event)
    requires OfRunner(e) && !(e.Poll? || e.Claim? || e.Internal? || e.Act? || e.ActRaises? || e.Retire?)
    requires !Leads(s, Index(e)) && FenceInv(s)
    ensures Next(s, e).db == s.db
  {
  }

  lemma OtherEnv(s: Session, e: Event)
    requires StepInv(s) && OfRunner(e)
    ensures
      var t := Next(s, e);
      && t.episodes >= s.episodes
      && (e.i < |t.runners| && t.runners[e.i].env.Some? ==> t.runners[e.i].env.value.episode < t.episodes)
      && (t.db.row.episode.Some? ==> t.db.row.episode.value < t.episodes)
  {
  }

  lemma OtherMoves(s: Session, e: Event)
    requires StepInv(s) && FenceInv(s)
    requires OfRunner(e) && !e.Retire? && !Leads(s, Index(e))
    ensures StepInv(Next(s, e))
  {
    var t := Next(s, e);
    RunnerMoves(s, e);
    if t != s {
      if e.Poll? || e.Claim? || e.Internal? || e.Act? || e.ActRaises? {
        OtherEarly(s, e);
      } else {
        OtherLate(s, e);
      }
      OtherEnv(s, e);
      assert RowsOk(t.db, t.episodes);
      forall j | 0 <= j < |t.runners| ensures RunnerOk(t.db, t.episodes, t.runners[j]) {
        assert RunnerOk(s.db, s.episodes, s.runners[j]);
      }
    }
  }

  lemma StepsStep(s: Session, e: Event)
    requires StepInv(s) && FenceInv(s) && PcsShaped(s) && OrderInv(s.db)
    ensures StepInv(Next(s, e))
  {
    var t := Next(s, e);
    if RowsOnly(e) {
      RowsKeep(s, e);
    } else if e.ClaimJob? || e.MaintainReads? {
      NewRunnerKeeps(s, e);
    } else if e.Begin? {
      BeginKeeps(s, e.i);
    } else if e.Retire? {
      RetireKeeps(s, e.i);
    } else if !Leads(s, Index(e)) {
      OtherMoves(s, e);
    } else {
      LeaderMoves(s, e);
      RunnerMoves(s, e);
      OtherEnv(s, e);
      if t != s {
        forall j | 0 <= j < |t.runners| && j != e.i ensures RunnerOk(t.db, t.episodes, t.runners[j]) {
          assert RunnerOk(s.db, s.episodes, s.runners[j]);
        }
      }
    }
  }
}
