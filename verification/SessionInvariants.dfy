/**
 What every event of the session protocol keeps. The invariant has five parts, each
 preserved by its own lemmas: fences, the terminal row, held commands, command order
 and step indices.
 */
module SessionInvariants {
  import opened Prelude
  import opened SessionStore
  import opened SessionProtocol
  import opened CompletedSteps

  // ---------------------------------------------------------------- what one event can touch

  /** The events that only change the durable rows. */
  predicate RowsOnly(e: Event) {
    e.Submit? || e.Usage? || e.LeaseExpires? || e.RenewLease? || e.ReapJob? || e.FinishJob? || e.FailOrRetryJob?
  }

  /** The events of a runner that has begun. */
  predicate OfRunner(e: Event) {
    !RowsOnly(e) && !e.ClaimJob? && !e.MaintainReads? && !e.Begin?
  }

  function Index(e: Event): nat
    requires OfRunner(e)
  {
    e.i
  }

  predicate Continues(r: Runner, t: Runner) {
    && t.fence == r.fence && t.maintainer == r.maintainer && t.worker == r.worker
    && !t.pc.Starting? && !t.pc.Inspecting?
    && (r.maintainer && (r.pc.Inspecting? || r.pc.Retiring? || r.pc.Gone?) && r.env.None?
        ==> (t.pc.Retiring? || t.pc.Gone?) && t.env.None?)
  }

  /** One runner moves on; the row's fence and the lease stay. */
  predicate OneMoves(s: Session, t: Session, i: nat) {
    && i < |s.runners|
    && |t.runners| == |s.runners|
    && t.runners == s.runners[i := t.runners[i]]
    && Continues(s.runners[i], t.runners[i])
    && t.db.row.fence == s.db.row.fence
    && t.db.job == s.db.job
  }

  lemma EarlyMoves(s: Session, e: Event)
    requires e.Poll? || e.Claim? || e.Internal? || e.Act? || e.ActRaises?
    ensures Next(s, e) == s || OneMoves(s, Next(s, e), Index(e))
  {
  }

  lemma LateMoves(s: Session, e: Event)
    requires e.StartReset? || e.Attach? || e.Commit? || e.RunEnds?
    ensures Next(s, e) == s || OneMoves(s, Next(s, e), Index(e))
  {
  }

  lemma LastMoves(s: Session, e: Event)
    requires e.Abort? || e.Crash? || e.MaintainJudges? || e.Retire?
    ensures Next(s, e) == s || OneMoves(s, Next(s, e), Index(e))
  {
  }

  lemma RunnerMoves(s: Session, e: Event)
    requires OfRunner(e)
    ensures Next(s, e) == s || OneMoves(s, Next(s, e), Index(e))
  {
    if e.Poll? || e.Claim? || e.Internal? || e.Act? || e.ActRaises? {
      EarlyMoves(s, e);
    } else if e.StartReset? || e.Attach? || e.Commit? || e.RunEnds? {
      LateMoves(s, e);
    } else {
      LastMoves(s, e);
    }
  }

  lemma RowsMoves(s: Session, e: Event)
    requires RowsOnly(e)
    ensures
      var t := Next(s, e);
      && t.runners == s.runners && t.acted == s.acted && t.episodes == s.episodes
      && t.db.row.fence == s.db.row.fence
      && t.db.job.attempts == s.db.job.attempts
  {
  }

  // ---------------------------------------------------------------- fences

  predicate OwnFencesDiffer(rs: seq<Runner>) {
    forall i, j :: 0 <= i < j < |rs| && !rs[i].maintainer && !rs[j].maintainer ==> rs[i].fence != rs[j].fence
  }

  predicate StartersUnseen(rs: seq<Runner>, fence: nat) {
    && (forall i :: 0 <= i < |rs| && rs[i].pc.Starting? ==> rs[i].fence != fence)
    && (forall i, j :: 0 <= i < |rs| && 0 <= j < |rs| && rs[i].pc.Starting? && rs[j].maintainer
          ==> rs[i].fence != rs[j].fence)
  }

  predicate RunnerShape(r: Runner, attempts: nat) {
    && r.fence <= attempts
    && (r.maintainer ==> (r.pc.Inspecting? || r.pc.Retiring? || r.pc.Gone?) && r.env.None?)
    && (!r.maintainer ==> r.fence >= 1 && !r.pc.Inspecting?)
  }

  /** Claims carry distinct attempt numbers, and a claim that has not begun was never the fence. */
  predicate FenceInv(s: Session) {
    && s.db.row.fence <= s.db.job.attempts
    && (forall i :: 0 <= i < |s.runners| ==> RunnerShape(s.runners[i], s.db.job.attempts))
    && OwnFencesDiffer(s.runners)
    && StartersUnseen(s.runners, s.db.row.fence)
  }

  lemma FencesOne(s: Session, t: Session, i: nat)
    requires FenceInv(s) && OneMoves(s, t, i)
    ensures FenceInv(t)
  {
  }

  lemma FencesClaimJob(s: Session, worker: nat, maxAttempts: nat)
    requires FenceInv(s)
    ensures FenceInv(ClaimJobNext(s, worker, maxAttempts))
  {
  }

  lemma FencesBegin(s: Session, i: nat)
    requires FenceInv(s)
    ensures FenceInv(BeginNext(s, i))
  {
  }

  lemma FencesMaintain(s: Session)
    requires FenceInv(s)
    ensures FenceInv(MaintainReadsNext(s))
  {
  }

  lemma FenceStep(s: Session, e: Event)
    requires FenceInv(s)
    ensures FenceInv(Next(s, e))
  {
    if RowsOnly(e) {
      RowsMoves(s, e);
    } else if e.ClaimJob? {
      FencesClaimJob(s, e.worker, e.maxAttempts);
    } else if e.Begin? {
      FencesBegin(s, e.i);
    } else if e.MaintainReads? {
      FencesMaintain(s);
    } else {
      RunnerMoves(s, e);
      if Next(s, e) != s {
        FencesOne(s, Next(s, e), Index(e));
      }
    }
  }

  // ---------------------------------------------------------------- the terminal row

  predicate TerminalInv(d: Durable) {
    && (Terminal(d.row.state) <==> d.row.released)
    && (d.row.released <==> d.settled.Some?)
    && (Terminal(d.row.state) ==> !AnyLive(d.commands))
  }

  /** The commit of `internal_command`, which checks the fence but not the row's state. */
  predicate InternalCommits(s: Session, e: Event) {
    && e.Internal?
    && At(s, e.i) == Looping
    && SelfDriven(s.db)
    && !Ends(e.kind)
    && FenceOk(s.db, s.runners[e.i].fence)
  }

  /** No internal command is added to a session that has already ended. */
  predicate Orderly(s: Session, e: Event) {
    InternalCommits(s, e) ==> !Terminal(s.db.row.state)
  }

  predicate PcShape(pc: Pc) {
    && (pc.Completing? ==> !Live(pc.status) && (pc.state.Some? ==> !Terminal(pc.state.value)))
    && (pc.Retiring? ==> Terminal(pc.end))
  }

  predicate PcsShaped(s: Session) {
    forall i :: 0 <= i < |s.runners| ==> PcShape(s.runners[i].pc)
  }

  lemma PcsRows(s: Session, e: Event)
    requires PcsShaped(s) && (RowsOnly(e) || e.Begin? || e.Commit? || e.Retire?)
    ensures PcsShaped(Next(s, e))
  {
  }

  lemma PcsMoves(s: Session, e: Event)
    requires PcsShaped(s) && !RowsOnly(e) && !e.Begin? && !e.Commit? && !e.Retire?
    ensures PcsShaped(Next(s, e))
  {
  }

  lemma PcsStep(s: Session, e: Event)
    requires PcsShaped(s)
    ensures PcsShaped(Next(s, e))
  {
    if RowsOnly(e) || e.Begin? || e.Commit? || e.Retire? {
      PcsRows(s, e);
    } else {
      PcsMoves(s, e);
    }
  }

  lemma TerminalStep(s: Session, e: Event)
    requires TerminalInv(s.db) && PcsShaped(s) && Orderly(s, e)
    ensures TerminalInv(Next(s, e).db)
  {
  }

  // ---------------------------------------------------------------- held commands

  function Held(r: Runner): Option<nat> {
    match r.pc
    case Executing(c) => Some(c)
    case Attaching(c) => Some(c)
    case Completing(c, _, _, _) => Some(c)
    case _ => None
  }

  predicate Settled(cs: seq<Command>, c: nat) {
    c < |cs| && cs[c].status != Pending
  }

  predicate HeldOnce(rs: seq<Runner>) {
    forall i, j :: 0 <= i < j < |rs| && Held(rs[i]).Some? ==> Held(rs[i]) != Held(rs[j])
  }

  predicate ActedOnce(acted: seq<nat>) {
    forall i, j :: 0 <= i < j < |acted| ==> acted[i] != acted[j]
  }

  /** A command has one holder, is acted on by its holder only, and never again afterwards. */
  predicate HoldInv(s: Session) {
    && (forall i :: 0 <= i < |s.runners| && Held(s.runners[i]).Some? ==>
          Settled(s.db.commands, Held(s.runners[i]).value))
    && HeldOnce(s.runners)
    && ActedOnce(s.acted)
    && (forall k :: 0 <= k < |s.acted| ==> Settled(s.db.commands, s.acted[k]))
    && (forall k, i :: 0 <= k < |s.acted| && 0 <= i < |s.runners| ==> s.runners[i].pc != Executing(s.acted[k]))
  }

  predicate KeepsSettled(cs: seq<Command>, ds: seq<Command>) {
    |cs| <= |ds| && forall c :: 0 <= c < |cs| && cs[c].status != Pending ==> ds[c].status != Pending
  }

  predicate KeepsHolds(rs: seq<Runner>, ts: seq<Runner>) {
    |rs| == |ts| &&
    forall i :: 0 <= i < |rs| ==>
      (Held(ts[i]).Some? ==> Held(ts[i]) == Held(rs[i])) && (ts[i].pc.Executing? ==> ts[i].pc == rs[i].pc)
  }

  lemma HoldsSame(s: Session, t: Session)
    requires HoldInv(s) && KeepsHolds(s.runners, t.runners)
    requires KeepsSettled(s.db.commands, t.db.commands) && t.acted == s.acted
    ensures HoldInv(t)
  {
  }

  /** A runner takes up a command that was pending, or did not exist, before. */
  lemma HoldsTake(s: Session, t: Session, i: nat, c: nat)
    requires HoldInv(s) && i < |s.runners| && t.acted == s.acted
    requires t.runners == s.runners[i := s.runners[i].(pc := Executing(c))]
    requires c < |s.db.commands| ==> s.db.commands[c].status == Pending
    requires KeepsSettled(s.db.commands, t.db.commands) && Settled(t.db.commands, c)
    ensures HoldInv(t)
  {
    forall j | 0 <= j < |s.runners| && j != i && Held(s.runners[j]).Some?
      ensures Held(s.runners[j]).value != c && Settled(t.db.commands, Held(s.runners[j]).value)
    {
    }
  }

  /** The holder acts on its command and moves past execution. */
  lemma HoldsAct(s: Session, t: Session, i: nat)
    requires HoldInv(s) && At(s, i).Executing? && t.db == s.db
    requires |t.runners| == |s.runners| && forall j :: 0 <= j < |s.runners| && j != i ==> t.runners[j] == s.runners[j]
    requires t.acted == s.acted + [At(s, i).c]
    requires !t.runners[i].pc.Executing? && (Held(t.runners[i]).Some? ==> Held(t.runners[i]) == Held(s.runners[i]))
    ensures HoldInv(t)
  {
    var c := At(s, i).c;
    forall j | 0 <= j < |t.runners| ensures t.runners[j].pc != Executing(c) {
      if j != i {
        assert Held(s.runners[i]) == Some(c);
      }
    }
    forall k | 0 <= k < |s.acted| ensures s.acted[k] != c {
      assert s.runners[i].pc == Executing(c);
    }
  }

  lemma HoldsNewRunner(s: Session, t: Session, r: Runner)
    requires HoldInv(s) && Held(r).None?
    requires t.runners == s.runners + [r] && t.acted == s.acted && t.db.commands == s.db.commands
    ensures HoldInv(t)
  {
  }

  lemma HoldRows(s: Session, e: Event)
    requires PcsShaped(s) && (RowsOnly(e) || e.Begin? || e.Commit? || e.Retire?)
    ensures KeepsSettled(s.db.commands, Next(s, e).db.commands) && Next(s, e).acted == s.acted
    ensures KeepsHolds(s.runners, Next(s, e).runners)
  {
  }

  lemma HoldMoves(s: Session, e: Event)
    requires e.Poll? || e.StartReset? || e.Attach? || e.RunEnds? || e.Abort? || e.Crash? || e.MaintainJudges?
    ensures KeepsSettled(s.db.commands, Next(s, e).db.commands) && Next(s, e).acted == s.acted
    ensures KeepsHolds(s.runners, Next(s, e).runners)
  {
  }

  lemma HoldTaking(s: Session, e: Event)
    requires HoldInv(s) && (e.Claim? || e.Internal?)
    ensures HoldInv(Next(s, e))
  {
    var t := Next(s, e);
    var i := Index(e);
    if At(t, i).Executing? && t != s {
      HoldsTake(s, t, i, At(t, i).c);
    } else {
      HoldsSame(s, t);
    }
  }

  lemma HoldActing(s: Session, e: Event)
    requires HoldInv(s) && (e.Act? || e.ActRaises?)
    ensures HoldInv(Next(s, e))
  {
    var t := Next(s, e);
    if t.acted != s.acted {
      HoldsAct(s, t, Index(e));
    } else {
      HoldsSame(s, t);
    }
  }

  lemma HoldStep(s: Session, e: Event)
    requires HoldInv(s) && PcsShaped(s)
    ensures HoldInv(Next(s, e))
  {
    var t := Next(s, e);
    if e.ClaimJob? || e.MaintainReads? {
      if t != s {
        HoldsNewRunner(s, t, t.runners[|s.runners|]);
      }
    } else if e.Claim? || e.Internal? {
      HoldTaking(s, e);
    } else if e.Act? || e.ActRaises? {
      HoldActing(s, e);
    } else {
      if RowsOnly(e) || e.Begin? || e.Commit? || e.Retire? {
        HoldRows(s, e);
      } else {
        HoldMoves(s, e);
      }
      HoldsSame(s, t);
    }
  }

  // ---------------------------------------------------------------- command order

  /** While a client's command is live, only closes and cancels are queued behind it. */
  predicate OrderInv(d: Durable) {
    !SelfDriven(d) ==>
      forall a, b :: 0 <= a < b < |d.commands| && Live(d.commands[a].status) ==> Ends(d.commands[b].kind)
  }

  predicate KeepsOrder(cs: seq<Command>, ds: seq<Command>) {
    |cs| == |ds| &&
    forall c :: 0 <= c < |cs| ==> ds[c].kind == cs[c].kind && (Live(ds[c].status) ==> Live(cs[c].status))
  }

  lemma OrderSubmit(d: Durable, q: Request)
    requires OrderInv(d)
    ensures OrderInv(SubmitTx(d, q).0)
  {
  }

  lemma OrderRows(s: Session, e: Event)
    requires OrderInv(s.db) && PcsShaped(s) && (RowsOnly(e) || e.Begin? || e.Commit? || e.Retire?)
    ensures OrderInv(Next(s, e).db)
  {
    if e.Submit? {
      OrderSubmit(s.db, e.request);
    } else {
      assert KeepsOrder(s.db.commands, Next(s, e).db.commands);
    }
  }

  lemma OrderMoves(s: Session, e: Event)
    requires OrderInv(s.db) && !RowsOnly(e) && !e.Begin? && !e.Commit? && !e.Retire?
    ensures OrderInv(Next(s, e).db)
  {
    assert e.Internal? || KeepsOrder(s.db.commands, Next(s, e).db.commands);
  }

  lemma OrderStep(s: Session, e: Event)
    requires OrderInv(s.db) && PcsShaped(s)
    ensures OrderInv(Next(s, e).db)
  {
    if RowsOnly(e) || e.Begin? || e.Commit? || e.Retire? {
      OrderRows(s, e);
    } else {
      OrderMoves(s, e);
    }
  }
}
