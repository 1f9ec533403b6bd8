/**
 What the transactions on a session answer and leave behind, stated by the rows alone, and what
 follows for whole runs: a repeated request gets the first command back, and a retirement gives
 every live command the status that says what became of it.
 */
module SessionAnswers {
  import opened Prelude
  import opened SessionStore
  import opened SessionProtocol
  import opened SessionInvariants
  import opened SessionTheorems

  predicate Ended(d: Durable) {
    d.row.state !in {Queued, Ready, Active, EpisodeDone}
  }

  lemma EndedIsTerminal(d: Durable)
    ensures Terminal(d.row.state) <==> Ended(d)
  {
    match d.row.state
    case Queued =>
    case Ready =>
    case Active =>
    case EpisodeDone =>
    case _ =>
  }

  predicate SomeLive(cs: seq<Command>) {
    exists c :: 0 <= c < |cs| && (cs[c].status == Pending || cs[c].status == Running)
  }

  // ---------------------------------------------------------------- submitting

  /** No request key is carried by two commands. */
  predicate KeysOnce(cs: seq<Command>) {
    forall b, c :: 0 <= b < c < |cs| && cs[b].key.Some? ==> cs[b].key != cs[c].key
  }

  predicate KeySeen(cs: seq<Command>, key: nat) {
    exists c :: 0 <= c < |cs| && cs[c].key == Some(key)
  }

  /** A request under a key that was seen gets that command back, or a conflict when its content differs. */
  predicate Repeats(d: Durable, q: Request, t: Durable, reply: Reply) {
    && t == d
    && forall c :: 0 <= c < |d.commands| && d.commands[c].key == Some(q.key) ==>
         reply == if d.commands[c].hash == q.hash then Replayed(c) else KeyConflict
  }

  /** The command is appended; a close or cancel of a session at work records the client's reason. */
  predicate Accepts(d: Durable, q: Request, t: Durable) {
    && t.commands == d.commands + [Command(Some(q.key), q.hash, q.kind, q.payload, if Ended(d) then Finished else Pending, 0)]
    && t.row == d.row.(stop := t.row.stop)
    && t == d.(row := t.row, commands := t.commands)
    && t.row.stop == (if Ended(d) then d.row.stop
                      else if q.kind == CancelSession then Some(ClientCancelled)
                      else if q.kind == CloseSession then Some(ClientClosed)
                      else d.row.stop)
  }

  /** A reset or step can be taken up: the session is at work for its client and has nothing live. */
  predicate TakesActions(d: Durable) {
    !Ended(d) && d.row.mode == External && !SomeLive(d.commands)
  }

  predicate OnItsEpisode(d: Durable, q: Request) {
    d.row.state == Active && d.row.episode == q.payload.episode
  }

  /** Each refusal by its own condition; whatever none of them covers is accepted. */
  predicate Decides(d: Durable, q: Request, t: Durable, reply: Reply) {
    var acts := q.kind == Reset || q.kind == Step;
    var free := TakesActions(d);
    && (reply == SessionTerminal <==> acts && Ended(d))
    && (reply == ManagedOwnsActions <==> acts && !Ended(d) && d.row.mode == Managed)
    && (reply == CommandInProgress <==> acts && !Ended(d) && d.row.mode == External && SomeLive(d.commands))
    && (reply == ResetRequired <==> free && q.kind == Step && !OnItsEpisode(d, q))
    && (reply == UnexpectedStepIndex <==>
          free && q.kind == Step && OnItsEpisode(d, q) && q.payload.expected != d.row.stepIndex + 1)
    && (reply == GenerationMismatch <==>
          && free && q.kind == Step && OnItsEpisode(d, q) && q.payload.expected == d.row.stepIndex + 1
          && !q.generationAccepted)
    && (reply == EpisodeAlreadyExecuted <==> free && q.kind == Reset && d.row.evaluation && d.row.episode.Some?)
    && (reply == SeedPinned <==>
          && free && q.kind == Reset && d.row.evaluation && d.row.episode.None?
          && q.payload.seed.Some? && q.payload.seed.value != d.row.seed)
    && !reply.Replayed? && reply != KeyConflict
    && (if reply.Accepted? then reply.index == |d.commands| && Accepts(d, q, t) else t == d)
  }

  predicate SubmitMeans(d: Durable, q: Request, t: Durable, reply: Reply) {
    if KeySeen(d.commands, q.key) then Repeats(d, q, t, reply) else Decides(d, q, t, reply)
  }

  lemma RefusalIs(d: Durable, q: Request)
    requires !KeySeen(d.commands, q.key)
    ensures var (t, reply) := SubmitTx(d, q); Decides(d, q, t, reply)
  {
    assert Find(d.commands, q.key).None?;
    EndedIsTerminal(d);
    assert AnyLive(d.commands) <==> SomeLive(d.commands);
  }

  /** The reply of a submission and what it leaves behind. */
  lemma SubmitAnswers(d: Durable, q: Request)
    requires KeysOnce(d.commands)
    ensures var (t, reply) := SubmitTx(d, q); SubmitMeans(d, q, t, reply)
  {
    if !KeySeen(d.commands, q.key) {
      RefusalIs(d, q);
    }
  }

  // ---------------------------------------------------------------- idempotency over runs

  predicate SameKeys(cs: seq<Command>, ds: seq<Command>) {
    |cs| == |ds| && forall c :: 0 <= c < |cs| ==> ds[c].key == cs[c].key
  }

  lemma KeysRows(s: Session, e: Event)
    requires RowsOnly(e) || e.Begin? || e.Commit? || e.Retire?
    ensures e.Submit? || SameKeys(s.db.commands, Next(s, e).db.commands)
  {
  }

  lemma KeysMoves(s: Session, e: Event)
    requires KeysOnce(s.db.commands) && !RowsOnly(e) && !e.Begin? && !e.Commit? && !e.Retire?
    ensures KeysOnce(Next(s, e).db.commands)
  {
    assert e.Internal? || SameKeys(s.db.commands, Next(s, e).db.commands);
  }

  lemma SubmitKeepsKeys(d: Durable, q: Request)
    requires KeysOnce(d.commands)
    ensures KeysOnce(SubmitTx(d, q).0.commands)
  {
  }

  lemma KeysStep(s: Session, e: Event)
    requires KeysOnce(s.db.commands)
    ensures KeysOnce(Next(s, e).db.commands)
  {
    if e.Submit? {
      SubmitKeepsKeys(s.db, e.request);
    } else if RowsOnly(e) || e.Begin? || e.Commit? || e.Retire? {
      KeysRows(s, e);
    } else {
      KeysMoves(s, e);
    }
  }

  lemma {:induction false} KeysRun(s: Session, es: seq<Event>)
    requires KeysOnce(s.db.commands)
    ensures KeysOnce(Run(s, es).db.commands)
    decreases |es|
  {
    if es != [] {
      KeysStep(s, es[0]);
      KeysRun(Next(s, es[0]), es[1..]);
    }
  }

  /**
   A request that was accepted once is answered with its command ever after, whatever happens in between,
   and changes nothing; the same key with other content is a conflict ever after.
   */
  lemma SubmitIsIdempotent(s: Session, q: Request, es: seq<Event>, other: Request)
    requires KeysOnce(s.db.commands) && PcsShaped(s)
    requires SubmitTx(s.db, q).1.Accepted? && other.key == q.key && other.hash != q.hash
    ensures
      var k := SubmitTx(s.db, q).1.index;
      var d := Run(Next(s, Submit(q)), es).db;
      && SubmitTx(d, q) == (d, Replayed(k))
      && SubmitTx(d, other) == (d, KeyConflict)
  {
    var k := SubmitTx(s.db, q).1.index;
    var t := Next(s, Submit(q));
    SubmitAnswers(s.db, q);
    assert t.db.commands[k].key == Some(q.key) && t.db.commands[k].hash == q.hash;
    PcsStep(s, Submit(q));
    KeysStep(s, Submit(q));
    CommandsForwardRun(t, es);
    KeysRun(t, es);
    var d := Run(t, es).db;
    assert d.commands[k].key == Some(q.key) && d.commands[k].hash == q.hash;
    SubmitAnswers(d, q);
    SubmitAnswers(d, other);
  }

  // ---------------------------------------------------------------- retirement

  predicate Closes(kind: Kind) {
    kind == CloseSession || kind == CancelSession
  }

  /** What becomes of a command when its session ends. */
  predicate EndsAs(c: Command, t: Command) {
    && t == c.(status := t.status)
    && (c.status == Pending && Closes(c.kind) ==> t.status == Finished)
    && (c.status == Running && Closes(c.kind) ==> t.status == Finished)
    && (c.status == Running && !Closes(c.kind) ==> t.status == Indeterminate)
    && (c.status == Pending && !Closes(c.kind) ==> t.status == Dropped)
    && (c.status != Pending && c.status != Running ==> t.status == c.status)
  }

  /** How the row ends: a client's close or cancel decides, else whoever retires the session. */
  predicate EndsRow(d: Durable, state: State, reason: Reason, t: Durable) {
    var closed, cancelled := d.row.stop == Some(ClientClosed), d.row.stop == Some(ClientCancelled);
    && t.row.state == (if closed then Closed else if cancelled then Cancelled else state)
    && t.row.stop == (if closed || cancelled then d.row.stop else Some(reason))
    && t.row == d.row.(state := t.row.state, stop := t.row.stop, released := true)
  }

  predicate SomeRunning(cs: seq<Command>) {
    exists c :: 0 <= c < |cs| && cs[c].status == Running
  }

  predicate EndsAll(cs: seq<Command>, ts: seq<Command>) {
    |ts| == |cs| && forall c :: 0 <= c < |cs| ==> EndsAs(cs[c], ts[c])
  }

  /** A retirement under the row's fence ends a session at work: its commands, its state and reason, its reservation. */
  predicate RetireMeans(d: Durable, fence: nat, state: State, reason: Reason, t: Durable) {
    if fence != d.row.fence || Ended(d) then t == d
    else
      && EndsAll(d.commands, t.commands)
      && EndsRow(d, state, reason, t)
      && t == d.(row := t.row, commands := t.commands, settled := t.settled)
      && t.settled == (if d.row.released then d.settled
                       else Some(if t.row.state == Interrupted || SomeRunning(d.commands) then d.row.maxCost else d.costUsed))
  }

  lemma EndCommandsAre(cs: seq<Command>)
    ensures EndsAll(cs, EndCommands(cs))
  {
    forall c | 0 <= c < |cs| ensures EndsAs(cs[c], EndCommands(cs)[c]) {
      assert EndCommands(cs)[c] == EndCommand(cs[c]);
    }
  }

  lemma EndedRowIs(d: Durable, state: State, reason: Reason)
    ensures EndsRow(d, state, reason, EndedRow(d, state, reason).(row := EndedRow(d, state, reason).row.(released := true)))
    ensures RetireCharge(d, state) == if EndedRow(d, state, reason).row.state == Interrupted || SomeRunning(d.commands)
                                      then d.row.maxCost else d.costUsed
  {
  }

  lemma RetireAnswers(d: Durable, fence: nat, state: State, reason: Reason)
    ensures RetireMeans(d, fence, state, reason, RetireTx(d, fence, state, reason))
  {
    EndedIsTerminal(d);
    EndCommandsAre(d.commands);
    EndedRowIs(d, state, reason);
  }

  // ---------------------------------------------------------------- what final statuses say

  /** Commands complete as finished or refused; only a retirement gives the other final statuses. */
  predicate CompletesPlainly(s: Session) {
    forall i :: 0 <= i < |s.runners| && s.runners[i].pc.Completing? ==>
      s.runners[i].pc.status == Finished || s.runners[i].pc.status == Refused
  }

  lemma PlainlyRows(s: Session, e: Event)
    requires CompletesPlainly(s) && (RowsOnly(e) || e.Begin? || e.Commit? || e.Retire?)
    ensures CompletesPlainly(Next(s, e))
  {
  }

  lemma PlainlyMoves(s: Session, e: Event)
    requires CompletesPlainly(s) && !RowsOnly(e) && !e.Begin? && !e.Commit? && !e.Retire?
    ensures CompletesPlainly(Next(s, e))
  {
  }

  lemma PlainlyStep(s: Session, e: Event)
    requires CompletesPlainly(s)
    ensures CompletesPlainly(Next(s, e))
  {
    if RowsOnly(e) || e.Begin? || e.Commit? || e.Retire? {
      PlainlyRows(s, e);
    } else {
      PlainlyMoves(s, e);
    }
  }

  predicate HasStatus(s: Session, c: nat, status: Status) {
    c < |s.db.commands| && s.db.commands[c].status == status
  }

  /** The retirement that ended the session gave the command this status. */
  predicate GivenAtTheEnd(s: Session, e: Event, c: nat, status: Status) {
    && e.Retire? && !Ended(s.db) && Ended(Next(s, e).db)
    && HasStatus(s, c, if status == Indeterminate then Running else Pending)
    && HasStatus(Next(s, e), c, status)
  }

  lemma GivenByRetire(s: Session, i: nat, c: nat, status: Status)
    requires PcsShaped(s) && (status == Indeterminate || status == Dropped)
    requires HasStatus(Next(s, Retire(i)), c, status) && !HasStatus(s, c, status)
    ensures GivenAtTheEnd(s, Retire(i), c, status)
  {
    var r := s.runners[i];
    RetireAnswers(s.db, r.fence, r.pc.end, r.pc.reason);
    assert PcShape(r.pc);
  }

  lemma GivenByRows(s: Session, e: Event, c: nat, status: Status)
    requires CompletesPlainly(s) && (RowsOnly(e) || e.Begin? || e.Commit?)
    requires (status == Indeterminate || status == Dropped) && HasStatus(Next(s, e), c, status)
    ensures HasStatus(s, c, status)
  {
  }

  lemma GivenByMoves(s: Session, e: Event, c: nat, status: Status)
    requires !RowsOnly(e) && !e.Begin? && !e.Commit? && !e.Retire?
    requires (status == Indeterminate || status == Dropped) && HasStatus(Next(s, e), c, status)
    ensures HasStatus(s, c, status)
  {
  }

  lemma GivenStep(s: Session, e: Event, c: nat, status: Status)
    requires CompletesPlainly(s) && PcsShaped(s)
    requires (status == Indeterminate || status == Dropped) && HasStatus(Next(s, e), c, status) && !HasStatus(s, c, status)
    ensures GivenAtTheEnd(s, e, c, status)
  {
    if e.Retire? {
      GivenByRetire(s, e.i, c, status);
    } else if RowsOnly(e) || e.Begin? || e.Commit? {
      GivenByRows(s, e, c, status);
    } else {
      GivenByMoves(s, e, c, status);
    }
  }

  lemma {:induction false} RunLast(s: Session, es: seq<Event>)
    requires es != []
    ensures var n := |es| - 1; Run(s, es) == Next(Run(s, es[..n]), es[n])
    decreases |es|
  {
    if |es| > 1 {
      var n := |es| - 1;
      assert es[1..][..n - 1] == es[..n][1..];
      RunLast(Next(s, es[0]), es[1..]);
    }
  }

  lemma {:induction false} PlainlyRun(s: Session, es: seq<Event>)
    requires CompletesPlainly(s) && PcsShaped(s)
    ensures CompletesPlainly(Run(s, es)) && PcsShaped(Run(s, es))
    decreases |es|
  {
    if es != [] {
      PlainlyStep(s, es[0]);
      PcsStep(s, es[0]);
      PlainlyRun(Next(s, es[0]), es[1..]);
    }
  }

  /** In every run an indeterminate command was running, and a dropped one still pending, when its session ended. */
  lemma {:induction false} FinalStatusesAreGivenAtTheEnd(q: NewSession, es: seq<Event>, c: nat, status: Status)
    requires (status == Indeterminate || status == Dropped) && HasStatus(Run(Fresh(q), es), c, status)
    ensures exists k :: 0 <= k < |es| && GivenAtTheEnd(Run(Fresh(q), es[..k]), es[k], c, status)
    decreases |es|
  {
    var n := |es| - 1;
    var before := Run(Fresh(q), es[..n]);
    RunLast(Fresh(q), es);
    PlainlyRun(Fresh(q), es[..n]);
    if HasStatus(before, c, status) {
      FinalStatusesAreGivenAtTheEnd(q, es[..n], c, status);
      var k :| 0 <= k < n && GivenAtTheEnd(Run(Fresh(q), es[..n][..k]), es[..n][k], c, status);
      assert es[..n][..k] == es[..k];
    } else {
      GivenStep(before, es[n], c, status);
    }
  }

  /** A dropped command was never claimed, and never reached an environment. */
  lemma DroppedWasNeverTaken(q: NewSession, es: seq<Event>, c: nat, k: nat)
    requires HasStatus(Run(Fresh(q), es), c, Dropped) && k <= |es|
    ensures !HasStatus(Run(Fresh(q), es[..k]), c, Running)
    ensures c !in Run(Fresh(q), es).acted
  {
    FreshIsPlain(q);
    DroppedStays(Fresh(q), es, c);
    assert es == es[..k] + es[k..];
    RunSplits(Fresh(q), es[..k], es[k..]);
    PlainlyRun(Fresh(q), es[..k]);
    NotDroppedLater(Run(Fresh(q), es[..k]), es[k..], c);
  }

  lemma FreshIsPlain(q: NewSession)
    ensures var s := Fresh(q); CompletesPlainly(s) && PcsShaped(s) && HoldInv(s) && DroppedUntouched(s)
  {
  }

  lemma DroppedStays(s: Session, es: seq<Event>, c: nat)
    requires DroppedUntouched(s) && HoldInv(s) && CompletesPlainly(s) && PcsShaped(s)
    requires HasStatus(Run(s, es), c, Dropped)
    ensures c !in Run(s, es).acted
  {
    DroppedRun(s, es);
    assert Untouched(Run(s, es), c);
  }

  lemma NotDroppedLater(s: Session, es: seq<Event>, c: nat)
    requires CompletesPlainly(s) && PcsShaped(s) && HasStatus(Run(s, es), c, Dropped)
    ensures !HasStatus(s, c, Running)
  {
    if HasStatus(s, c, Running) {
      RunningIsNeverDropped(s, es, c);
    }
  }

  lemma {:induction false} RunningIsNeverDropped(s: Session, es: seq<Event>, c: nat)
    requires CompletesPlainly(s) && PcsShaped(s)
    requires c < |s.db.commands| && s.db.commands[c].status != Pending && s.db.commands[c].status != Dropped
    ensures !HasStatus(Run(s, es), c, Dropped)
    decreases |es|
  {
    if es != [] {
      var t := Next(s, es[0]);
      PlainlyStep(s, es[0]);
      PcsStep(s, es[0]);
      CommandsForwardRun(s, [es[0]]);
      assert Run(s, [es[0]]) == t by {
        assert [es[0]][1..] == [];
      }
      if HasStatus(t, c, Dropped) {
        GivenStep(s, es[0], c, Dropped);
      }
      RunningIsNeverDropped(t, es[1..], c);
    }
  }

  // ---------------------------------------------------------------- dropped commands

  predicate IsHeld(rs: seq<Runner>, c: nat) {
    exists i :: 0 <= i < |rs| && Held(rs[i]) == Some(c)
  }

  predicate Untouched(s: Session, c: nat) {
    !IsHeld(s.runners, c) && c !in s.acted
  }

  /** No runner holds a dropped command, and none was acted on. */
  ghost predicate DroppedUntouched(s: Session) {
    forall c: nat :: HasStatus(s, c, Dropped) ==> Untouched(s, c)
  }

  lemma PendingUntouched(s: Session, c: nat)
    requires HoldInv(s) && HasStatus(s, c, Pending)
    ensures Untouched(s, c)
  {
  }

  lemma KeptUntouched(s: Session, t: Session, c: nat)
    requires Untouched(s, c) && KeepsHolds(s.runners, t.runners) && t.acted == s.acted
    ensures Untouched(t, c)
  {
  }

  /** Only a pending command, or one that is new, is taken up. */
  lemma TakingElsewhere(s: Session, e: Event, c: nat)
    requires Untouched(s, c) && c < |s.db.commands| && s.db.commands[c].status != Pending && (e.Claim? || e.Internal?)
    ensures Untouched(Next(s, e), c)
  {
    var t := Next(s, e);
    if At(t, Index(e)).Executing? && t != s {
      assert At(t, Index(e)).c != c;
      assert forall i :: 0 <= i < |s.runners| && i != Index(e) ==> t.runners[i] == s.runners[i];
    } else {
      assert KeepsHolds(s.runners, t.runners);
    }
  }

  lemma ActingElsewhere(s: Session, e: Event, c: nat)
    requires Untouched(s, c) && (e.Act? || e.ActRaises?)
    ensures Untouched(Next(s, e), c)
  {
    var t := Next(s, e);
    assert KeepsHolds(s.runners, t.runners);
    if t.acted != s.acted {
      assert Held(s.runners[Index(e)]) == Some(At(s, Index(e)).c);
    }
  }

  lemma UntouchedStep(s: Session, e: Event, c: nat)
    requires Untouched(s, c) && c < |s.db.commands| && PcsShaped(s)
    requires (e.Claim? || e.Internal?) ==> s.db.commands[c].status != Pending
    ensures Untouched(Next(s, e), c)
  {
    var t := Next(s, e);
    if e.ClaimJob? || e.MaintainReads? {
      assert forall i :: 0 <= i < |s.runners| ==> t.runners[i] == s.runners[i];
    } else if e.Claim? || e.Internal? {
      TakingElsewhere(s, e, c);
    } else if e.Act? || e.ActRaises? {
      ActingElsewhere(s, e, c);
    } else {
      if RowsOnly(e) || e.Begin? || e.Commit? || e.Retire? {
        HoldRows(s, e);
      } else {
        HoldMoves(s, e);
      }
      KeptUntouched(s, t, c);
    }
  }

  lemma DroppedStep(s: Session, e: Event)
    requires DroppedUntouched(s) && HoldInv(s) && CompletesPlainly(s) && PcsShaped(s)
    ensures DroppedUntouched(Next(s, e))
  {
    forall c: nat | HasStatus(Next(s, e), c, Dropped) ensures Untouched(Next(s, e), c) {
      if !HasStatus(s, c, Dropped) {
        GivenStep(s, e, c, Dropped);
        PendingUntouched(s, c);
      }
      UntouchedStep(s, e, c);
    }
  }

  lemma {:induction false} DroppedRun(s: Session, es: seq<Event>)
    requires DroppedUntouched(s) && HoldInv(s) && CompletesPlainly(s) && PcsShaped(s)
    ensures DroppedUntouched(Run(s, es))
    decreases |es|
  {
    if es != [] {
      DroppedStep(s, es[0]);
      HoldStep(s, es[0]);
      PlainlyStep(s, es[0]);
      PcsStep(s, es[0]);
      DroppedRun(Next(s, es[0]), es[1..]);
    }
  }
}
