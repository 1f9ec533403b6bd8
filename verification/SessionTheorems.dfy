/** What holds of one research session over every run of its protocol. */
module SessionTheorems {
  import opened Prelude
  import opened SessionStore
  import opened SessionProtocol
  import opened CompletedSteps
  import opened SessionInvariants
  import opened SessionSteps
  import opened SessionClaims

  // ---------------------------------------------------------------- the invariant over runs

  /** What every event keeps, whatever the worker loop does. */
  ghost predicate Always(s: Session) {
    FenceInv(s) && PcsShaped(s) && HoldInv(s) && OrderInv(s.db) && StepInv(s)
  }

  /** What every event keeps when workers claim alone. */
  ghost predicate Inv(s: Session) {
    Always(s) && TerminalInv(s.db) && LeaseInv(s)
  }

  lemma FreshInv(q: NewSession)
    ensures Inv(Fresh(q))
  {
  }

  lemma AlwaysStep(s: Session, e: Event)
    requires Always(s)
    ensures Always(Next(s, e))
  {
    FenceStep(s, e);
    PcsStep(s, e);
    HoldStep(s, e);
    OrderStep(s, e);
    StepsStep(s, e);
  }

  lemma {:induction false} AlwaysRun(s: Session, es: seq<Event>)
    requires Always(s)
    ensures Always(Run(s, es))
    decreases |es|
  {
    if es != [] {
      AlwaysStep(s, es[0]);
      AlwaysRun(Next(s, es[0]), es[1..]);
    }
  }

  lemma InvStep(s: Session, e: Event)
    requires Inv(s) && ClaimsAlone(s, e)
    ensures Inv(Next(s, e))
  {
    AlwaysStep(s, e);
    LeaseIsOrderly(s, e);
    LeaseStep(s, e);
    TerminalStep(s, e);
  }

  lemma {:induction false} InvRun(s: Session, es: seq<Event>)
    requires Inv(s) && ClaimsAloneRun(s, es)
    ensures Inv(Run(s, es))
    decreases |es|
  {
    if es != [] {
      InvStep(s, es[0]);
      InvRun(Next(s, es[0]), es[1..]);
    }
  }

  // ---------------------------------------------------------------- fencing

  /** A runner that has begun, or a maintenance pass, whose fence the row no longer carries. */
  predicate Superseded(s: Session, i: nat) {
    i < |s.runners| && !s.runners[i].pc.Starting? && s.runners[i].fence != s.db.row.fence
  }

  lemma SupersededChangesNothing(s: Session, e: Event)
    requires OfRunner(e) && Superseded(s, Index(e))
    ensures Next(s, e).db == s.db
  {
    if e.Poll? || e.Claim? || e.Internal? || e.Act? || e.ActRaises? {
      SupersededEarly(s, e);
    }
  }

  lemma SupersededEarly(s: Session, e: Event)
    requires (e.Poll? || e.Claim? || e.Internal? || e.Act? || e.ActRaises?) && Superseded(s, Index(e))
    ensures Next(s, e).db == s.db
  {
  }

  lemma SupersededStep(s: Session, e: Event, i: nat)
    requires FenceInv(s) && Superseded(s, i)
    ensures Superseded(Next(s, e), i)
  {
    if RowsOnly(e) {
      RowsMoves(s, e);
    } else if e.Begin? {
      assert i < |s.runners| && e.i < |s.runners| && i != e.i && !s.runners[i].maintainer && !s.runners[e.i].maintainer
        ==> s.runners[i].fence != s.runners[e.i].fence;
    } else if OfRunner(e) {
      RunnerMoves(s, e);
    }
  }

  /** Once superseded, always superseded: no later event of that runner changes the rows. */
  lemma {:induction false} SupersededForever(s: Session, es: seq<Event>, i: nat)
    requires FenceInv(s) && Superseded(s, i)
    ensures FenceInv(Run(s, es)) && Superseded(Run(s, es), i)
    ensures forall e: Event :: OfRunner(e) && Index(e) == i ==> Next(Run(s, es), e).db == Run(s, es).db
    decreases |es|
  {
    if es != [] {
      FenceStep(s, es[0]);
      SupersededStep(s, es[0], i);
      SupersededForever(Next(s, es[0]), es[1..], i);
    }
    forall e: Event | OfRunner(e) && Index(e) == i ensures Next(Run(s, es), e).db == Run(s, es).db {
      SupersededChangesNothing(Run(s, es), e);
    }
  }

  // ---------------------------------------------------------------- commands only move forward

  predicate Forward(a: Status, b: Status) {
    a == b || a == Pending || (a == Running && !Live(b))
  }

  /** Commands are never lost or rewritten; only their status (and claimant) moves on. */
  predicate CommandsForward(cs: seq<Command>, ds: seq<Command>) {
    |cs| <= |ds| &&
    forall c :: 0 <= c < |cs| ==>
      && ds[c].key == cs[c].key && ds[c].hash == cs[c].hash && ds[c].kind == cs[c].kind
      && ds[c].payload == cs[c].payload && Forward(cs[c].status, ds[c].status)
  }

  lemma ForwardRows(s: Session, e: Event)
    requires PcsShaped(s) && (RowsOnly(e) || e.Begin? || e.Commit? || e.Retire?)
    ensures CommandsForward(s.db.commands, Next(s, e).db.commands)
  {
  }

  lemma ForwardMoves(s: Session, e: Event)
    requires !RowsOnly(e) && !e.Begin? && !e.Commit? && !e.Retire?
    ensures CommandsForward(s.db.commands, Next(s, e).db.commands)
  {
  }

  /** In every run, orderly or not, a command goes from pending to running to a final status. */
  lemma {:induction false} CommandsForwardRun(s: Session, es: seq<Event>)
    requires PcsShaped(s)
    ensures PcsShaped(Run(s, es)) && CommandsForward(s.db.commands, Run(s, es).db.commands)
    decreases |es|
  {
    if es != [] {
      var e := es[0];
      PcsStep(s, e);
      if RowsOnly(e) || e.Begin? || e.Commit? || e.Retire? {
        ForwardRows(s, e);
      } else {
        ForwardMoves(s, e);
      }
      CommandsForwardRun(Next(s, e), es[1..]);
    }
  }

  /** In every run, orderly or not, each command's action reaches an environment at most once. */
  lemma {:induction false} ActsOnce(s: Session, es: seq<Event>)
    requires HoldInv(s) && PcsShaped(s)
    ensures HoldInv(Run(s, es)) && PcsShaped(Run(s, es))
    ensures ActedOnce(Run(s, es).acted)
    decreases |es|
  {
    if es != [] {
      HoldStep(s, es[0]);
      PcsStep(s, es[0]);
      ActsOnce(Next(s, es[0]), es[1..]);
    }
  }

  // ---------------------------------------------------------------- terminal sessions

  predicate Unchanged(d: Durable, t: Durable) {
    && t.row.state == d.row.state && t.row.stop == d.row.stop && t.row.stepIndex == d.row.stepIndex
    && t.row.fence == d.row.fence && t.row.released == d.row.released && t.settled == d.settled
    && |d.commands| <= |t.commands|
    && forall c :: 0 <= c < |d.commands| ==> t.commands[c] == d.commands[c]
  }

  lemma AbsorbingEarly(s: Session, e: Event)
    requires Always(s) && TerminalInv(s.db) && Terminal(s.db.row.state) && Orderly(s, e)
    requires e.Poll? || e.Claim? || e.Internal? || e.Act? || e.ActRaises?
    ensures Unchanged(s.db, Next(s, e).db)
  {
  }

  lemma AbsorbingLate(s: Session, e: Event)
    requires Always(s) && TerminalInv(s.db) && Terminal(s.db.row.state) && Orderly(s, e)
    requires !(e.Poll? || e.Claim? || e.Internal? || e.Act? || e.ActRaises?)
    ensures Unchanged(s.db, Next(s, e).db)
  {
  }

  lemma {:induction false} EndedStays(s: Session, es: seq<Event>)
    requires Inv(s) && Terminal(s.db.row.state) && ClaimsAloneRun(s, es)
    ensures Unchanged(s.db, Run(s, es).db)
    ensures !AnyLive(Run(s, es).db.commands)
    decreases |es|
  {
    if es != [] {
      var e := es[0];
      LeaseIsOrderly(s, e);
      InvStep(s, e);
      if e.Poll? || e.Claim? || e.Internal? || e.Act? || e.ActRaises? {
        AbsorbingEarly(s, e);
      } else {
        AbsorbingLate(s, e);
      }
      EndedStays(Next(s, e), es[1..]);
    }
  }

  /**
   An ended session stays as it is: its state, reason, step count, settlement and every
   command it had; what a later close or cancel adds is recorded as already finished.
   */
  lemma TerminalAbsorbs(q: NewSession, es: seq<Event>, later: seq<Event>)
    requires ClaimsAloneRun(Fresh(q), es + later)
    ensures
      var s := Run(Fresh(q), es);
      var t := Run(Fresh(q), es + later);
      Terminal(s.db.row.state) ==>
        && Unchanged(s.db, t.db)
        && t.db.row.released && t.db.settled.Some?
        && !AnyLive(t.db.commands)
  {
    FreshInv(q);
    ClaimsAloneSplits(Fresh(q), es, later);
    InvRun(Fresh(q), es);
    RunSplits(Fresh(q), es, later);
    if Terminal(Run(Fresh(q), es).db.row.state) {
      EndedStays(Run(Fresh(q), es), later);
    }
  }

  lemma {:induction false} ClaimsAloneSplits(s: Session, es: seq<Event>, fs: seq<Event>)
    requires ClaimsAloneRun(s, es + fs)
    ensures ClaimsAloneRun(s, es) && ClaimsAloneRun(Run(s, es), fs)
    decreases |es|
  {
    if es == [] {
      assert es + fs == fs;
    } else {
      assert (es + fs)[1..] == es[1..] + fs;
      ClaimsAloneSplits(Next(s, es[0]), es[1..], fs);
    }
  }

  /**
   In every run in which workers claim alone no internal command is committed to an ended session,
   and every event keeps the whole invariant.
   */
  lemma WorkerRunsAreOrderly(q: NewSession, es: seq<Event>)
    requires ClaimsAloneRun(Fresh(q), es)
    ensures OrderlyRun(Fresh(q), es) && Inv(Run(Fresh(q), es))
  {
    FreshInv(q);
    ClaimsAloneIsOrderly(Fresh(q), es);
    InvRun(Fresh(q), es);
  }

  /** The one transaction that can break this: it keeps the terminal row exactly when the row has not ended. */
  lemma InternalKeepsTerminalIff(s: Session, e: Event)
    requires TerminalInv(s.db) && PcsShaped(s) && InternalCommits(s, e)
    ensures TerminalInv(Next(s, e).db) <==> !Terminal(s.db.row.state)
  {
    var t := Next(s, e);
    if Terminal(s.db.row.state) {
      assert Live(t.db.commands[|s.db.commands|].status);
    }
  }

  /** After every event of the run a terminal session has no live command and a released reservation. */
  ghost predicate StaysTerminal(s: Session, es: seq<Event>)
    decreases |es|
  {
    es != [] ==> TerminalInv(Next(s, es[0]).db) && StaysTerminal(Next(s, es[0]), es[1..])
  }

  /** Over whole runs: that holds throughout exactly when no internal command is committed to an ended session. */
  lemma {:induction false} StaysTerminalIff(s: Session, es: seq<Event>)
    requires Always(s) && TerminalInv(s.db)
    ensures StaysTerminal(s, es) <==> OrderlyRun(s, es)
    decreases |es|
  {
    if es != [] {
      if Orderly(s, es[0]) {
        AlwaysStep(s, es[0]);
        TerminalStep(s, es[0]);
        StaysTerminalIff(Next(s, es[0]), es[1..]);
      } else {
        InternalKeepsTerminalIff(s, es[0]);
      }
    }
  }

  lemma {:induction false} RunSplits(s: Session, es: seq<Event>, fs: seq<Event>)
    ensures Run(s, es + fs) == Run(Run(s, es), fs)
    decreases |es|
  {
    if es == [] {
      assert es + fs == fs;
    } else {
      assert (es + fs)[1..] == es[1..] + fs;
      RunSplits(Next(s, es[0]), es[1..], fs);
    }
  }

  lemma RunTwo(s: Session, e: Event, f: Event)
    ensures Run(s, [e, f]) == Next(Next(s, e), f)
  {
    var t := Next(s, e);
    assert [e, f][1..] == [f] && [f][1..] == [];
    assert Run(t, [f]) == Run(Next(t, f), []);
    assert Run(s, [e, f]) == Run(t, [f]);
  }

  /** The start of a session: a worker claims its job and takes the session over. */
  function Opening(): seq<Event> {
    [ClaimJob(1, 3), Begin(0)]
  }

  predicate Opened(s: Session, q: NewSession) {
    s == Session(FreshSession(q).(row := FreshSession(q).row.(fence := 1, worker := Some(1), state := Ready),
                                  job := Job(Leased, Some(1), 1, false)),
                 [Runner(1, 1, None, Looping, false)], [], 0)
  }

  lemma Opens(q: NewSession)
    ensures Opened(Run(Fresh(q), Opening()), q)
  {
    RunTwo(Fresh(q), ClaimJob(1, 3), Begin(0));
    assert Next(Fresh(q), ClaimJob(1, 3)).runners == [Runner(1, 1, None, Starting, false)];
  }

  // ---------------------------------------------------------------- settlement

  /** What the ledger is charged when an event ends a session. */
  lemma SettlementEarly(s: Session, e: Event)
    requires !s.db.row.released && !e.Retire?
    ensures !Next(s, e).db.row.released
  {
  }

  /**
   A session is settled for its whole maximum exactly when it ends as interrupted or with a
   command still running, and for what its campaign used otherwise.
   */
  lemma SettlementIs(s: Session, e: Event)
    requires !s.db.row.released && Next(s, e).db.row.released
    ensures
      var t := Next(s, e).db;
      var whole := t.row.state == Interrupted || AnyRunning(s.db.commands);
      t.settled == Some(if whole then s.db.row.maxCost else s.db.costUsed)
  {
    if !e.Retire? {
      SettlementEarly(s, e);
    }
  }

  /** A client's close that arrives between the worker's check and its claim. */
  function Closing(key: nat): seq<Event> {
    [Poll(0, None), Submit(Request(key, key, CloseSession, Payload(None, 0, None), true))]
  }

  /** The guard around execution finds the stop reason and raises before the command begins. */
  function ClaimingIt(): seq<Event> {
    [Claim(0), Abort(0, ExecutionInterrupted)]
  }

  /** A session that never ran anything and used nothing can be closed at the price of its maximum. */
  lemma ClaimedCloseChargesMaximum(q: NewSession, key: nat)
    requires q.mode == External && !q.reproduction
    ensures
      var t := Next(Run(Fresh(q), Opening() + Closing(key) + ClaimingIt()), Retire(0));
      && t.db.row.state == Closed && t.acted == [] && t.db.costUsed == 0.0
      && t.db.settled == Some(q.maxCost)
  {
    Opens(q);
    var s := Run(Fresh(q), Opening());
    RunSplits(Fresh(q), Opening(), Closing(key));
    RunSplits(Fresh(q), Opening() + Closing(key), ClaimingIt());
    ClosesWhileClaiming(s, q, key);
    ClaimsTheClose(Run(s, Closing(key)), q, key);
  }

  predicate CloseQueued(s: Session, q: NewSession, key: nat, status: Status, pc: Pc) {
    && s.db.row == FreshSession(q).row.(fence := 1, worker := Some(1), state := Ready, stop := Some(ClientClosed))
    && s.db.job == Job(Leased, Some(1), 1, false) && s.db.costUsed == 0.0 && s.acted == []
    && |s.db.commands| == 1 && s.db.commands[0].kind == CloseSession && s.db.commands[0].status == status
    && s.runners == [Runner(1, 1, None, pc, false)]
  }

  lemma ClosesWhileClaiming(s: Session, q: NewSession, key: nat)
    requires Opened(s, q) && q.mode == External && !q.reproduction
    ensures CloseQueued(Run(s, Closing(key)), q, key, Pending, Claiming)
  {
    RunTwo(s, Closing(key)[0], Closing(key)[1]);
    assert Next(s, Poll(0, None)).runners == [Runner(1, 1, None, Claiming, false)];
  }

  lemma ClaimsTheClose(s: Session, q: NewSession, key: nat)
    requires CloseQueued(s, q, key, Pending, Claiming) && q.mode == External && !q.reproduction
    ensures
      var t := Next(Run(s, ClaimingIt()), Retire(0));
      && t.db.row.state == Closed && t.acted == [] && t.db.costUsed == 0.0
      && t.db.settled == Some(q.maxCost)
  {
    RunTwo(s, Claim(0), Abort(0, ExecutionInterrupted));
    var t := Run(s, ClaimingIt());
    assert At(Next(s, Claim(0)), 0) == Executing(0);
    assert CloseQueued(t, q, key, Running, Retiring(Interrupted, ExecutionInterrupted));
    assert t.db.commands[0].status == Running;
  }

  // ---------------------------------------------------------------- step indices

  /** For every run and every episode: completed steps carry 1..n in creation order. */
  lemma StepsCountUp(q: NewSession, es: seq<Event>, episode: nat)
    ensures Counts(Indices(Run(Fresh(q), es).db.commands, episode))
  {
    FreshInv(q);
    AlwaysRun(Fresh(q), es);
    assert AllCount(Run(Fresh(q), es).db.commands);
  }

  /**
   In every run: whenever the row is active and no reset or step is running, the row's index is the number of
   completed steps of its episode, and the environment of the runner in charge agrees with both.
   */
  lemma ActiveRowIsExact(q: NewSession, es: seq<Event>)
    ensures
      var s := Run(Fresh(q), es);
      s.db.row.state == Active && !Busy(s.db.commands) ==>
        && s.db.row.episode.Some?
        && s.db.row.stepIndex == Count(s.db, s.db.row.episode.value)
        && forall i :: 0 <= i < |s.runners| && Current(s.db, s.runners[i]) ==>
             s.runners[i].env == Some(Env(s.db.row.episode.value, s.db.row.stepIndex))
  {
    FreshInv(q);
    AlwaysRun(Fresh(q), es);
    var s := Run(Fresh(q), es);
    if s.db.row.state == Active && !Busy(s.db.commands) {
      forall i | 0 <= i < |s.runners| && Current(s.db, s.runners[i])
        ensures s.runners[i].env == Some(Env(s.db.row.episode.value, s.db.row.stepIndex))
      {
        var r := s.runners[i];
        assert RunnerOk(s.db, s.episodes, r) && RunnerShape(r, s.db.job.attempts);
        if Held(r).Some? {
          var c := Held(r).value;
          assert s.db.commands[c].status == Running;
        }
      }
    }
  }
}
