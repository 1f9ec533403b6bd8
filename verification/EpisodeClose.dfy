/** Closing an episode environment when any operation can fail, before or after it took effect. */
module EpisodeClose {
  import opened Prelude

  datatype Status = Executing | Verifying | Succeeded | Exhausted | Failed | Destroyed

  datatype Signal = Signal(verifier: nat, terminal: bool, severity: real)

  datatype Finding = Finding(verifier: nat, severity: real, linked: bool)

  /** A forbidden state of the task: its verifier and default severity. */
  datatype Specification = Specification(verifier: nat, severity: real)

  datatype Task = Task(specifications: seq<Specification>, storesEvidence: bool)

  datatype Repo = Repo(status: Status, terminalSuccess: bool, signals: seq<Signal>, findings: seq<Finding>,
                       evidence: nat)

  /** `destroys` counts the calls to the runtime's destroy that returned. */
  datatype Env = Env(delegateClosed: bool, finalized: bool, destroyed: bool, destructionRecorded: bool,
                     closed: bool, terminalSuccess: bool, failed: bool, destroys: nat)

  datatype Op =
    | CloseDelegate | ReadStatus | MarkVerifying | ReadVerifying | MarkOutcome | ReadOutcome
    | ReadTask | ReadFindings | AddFinding(verifier: nat)
    | ListEvidence | LinkEvidence | BuildEvidence
    | DestroyRuntime | ReadDestroyed | MarkDestroyed

  /** An operation that fails may have taken effect before it raised. */
  datatype Fault = Fine | Before | After

  type Faults = Op -> Fault

  function Write(fault: Fault, r: Repo, done: Repo): (Repo, bool) {
    (if fault.Before? then r else done, fault.Fine?)
  }

  // ----- terminal verifiers -----

  predicate HasTerminal(signals: seq<Signal>, verifier: nat) {
    exists i :: 0 <= i < |signals| && signals[i].terminal && signals[i].verifier == verifier
  }

  function Severity(signals: seq<Signal>, verifier: nat): real {
    if signals == [] then
      0.0
    else
      var rest := Severity(signals[..|signals| - 1], verifier);
      var last := signals[|signals| - 1];
      if last.terminal && last.verifier == verifier then Max(rest, last.severity) else rest
  }

  predicate Declared(t: Task, verifier: nat) {
    exists i :: 0 <= i < |t.specifications| && t.specifications[i].verifier == verifier
  }

  predicate AllDeclared(t: Task, signals: seq<Signal>) {
    forall i :: 0 <= i < |signals| && signals[i].terminal ==> Declared(t, signals[i].verifier)
  }

  function Observed(specifications: seq<Specification>, signals: seq<Signal>): seq<Finding> {
    if specifications == [] then
      []
    else
      var v := specifications[0].verifier;
      (if HasTerminal(signals, v) then [Finding(v, Severity(signals, v), false)] else [])
      + Observed(specifications[1..], signals)
  }

  predicate AnyTerminal(signals: seq<Signal>) {
    exists i :: 0 <= i < |signals| && signals[i].terminal
  }

  /** The findings a terminal episode must have; none can be named when an undeclared verifier ended it. */
  function Wanted(t: Task, signals: seq<Signal>): Option<seq<Finding>> {
    if !AllDeclared(t, signals) then
      None
    else if AnyTerminal(signals) then
      Some(Observed(t.specifications, signals))
    else if |t.specifications| == 1 then
      Some([Finding(t.specifications[0].verifier, t.specifications[0].severity, false)])
    else
      None
  }

  // ----- one call -----

  function Outcome(env: Env): Status {
    if env.failed then Failed else if env.terminalSuccess then Succeeded else Exhausted
  }

  function MarkOutcomeIn(env: Env, r: Repo): Repo {
    r.(status := Outcome(env), terminalSuccess := env.terminalSuccess)
  }

  /** From executing through verifying to the outcome, with a read before each step. */
  function SettleStatus(env: Env, r: Repo, f: Faults): (Repo, bool) {
    if !f(ReadStatus).Fine? then
      (r, false)
    else
      var (one, ok) := if r.status.Executing? then Write(f(MarkVerifying), r, r.(status := Verifying)) else (r, true);
      if !ok || !f(ReadVerifying).Fine? then
        (one, false)
      else if one.status.Verifying? then
        Write(f(MarkOutcome), one, MarkOutcomeIn(env, one))
      else
        (one, true)
  }

  predicate Has(findings: seq<Finding>, verifier: nat) {
    exists i :: 0 <= i < |findings| && findings[i].verifier == verifier
  }

  /** `existing` was read once, before the loop; the loop stops at the first failure. */
  function AddMissing(wanted: seq<Finding>, existing: seq<Finding>, r: Repo, f: Faults): (Repo, bool)
    decreases |wanted|
  {
    if wanted == [] then
      (r, true)
    else if Has(existing, wanted[0].verifier) then
      AddMissing(wanted[1..], existing, r, f)
    else
      var (added, ok) := Write(f(AddFinding(wanted[0].verifier)), r, r.(findings := r.findings + [wanted[0]]));
      if ok then AddMissing(wanted[1..], existing, added, f) else (added, false)
  }

  function RecordFindings(t: Task, r: Repo, f: Faults): (Repo, bool) {
    if !f(ReadOutcome).Fine? then
      (r, false)
    else if !r.terminalSuccess then
      (r, true)
    else if !f(ReadTask).Fine? || Wanted(t, r.signals).None? || !f(ReadFindings).Fine? then
      (r, false)
    else
      AddMissing(Wanted(t, r.signals).value, r.findings, r, f)
  }

  function Linked(findings: seq<Finding>): seq<Finding> {
    seq(|findings|, i requires 0 <= i < |findings| => findings[i].(linked := true))
  }

  predicate Terminal(s: Status) {
    !s.Executing? && !s.Verifying?
  }

  /** Building writes the evidence row first and links the findings after it. */
  function StoreEvidence(t: Task, r: Repo, f: Faults): (Repo, bool) {
    if !t.storesEvidence then
      (r, true)
    else if !f(ListEvidence).Fine? then
      (r, false)
    else if r.evidence > 0 then
      Write(f(LinkEvidence), r, r.(findings := Linked(r.findings)))
    else if !Terminal(r.status) || f(BuildEvidence).Before? then
      (r, false)
    else
      var built := r.(evidence := r.evidence + 1);
      (if f(BuildEvidence).Fine? then built.(findings := Linked(r.findings)) else built, f(BuildEvidence).Fine?)
  }

  function Finalize(t: Task, env: Env, r: Repo, f: Faults): (Repo, bool) {
    var (settled, ok) := SettleStatus(env, r, f);
    if !ok then
      (settled, false)
    else
      var (recorded, ok') := RecordFindings(t, settled, f);
      if !ok' then (recorded, false) else StoreEvidence(t, recorded, f)
  }

  /** The second result is the destruction flag, the third whether the step raised. */
  function RecordDestruction(r: Repo, f: Faults): (Repo, bool, bool) {
    if !f(ReadDestroyed).Fine? then
      (r, false, true)
    else if r.status.Destroyed? then
      (r, true, false)
    else if Terminal(r.status) then
      var (marked, ok) := Write(f(MarkDestroyed), r, r.(status := Destroyed));
      (marked, ok, !ok)
    else
      (r, false, false)
  }

  function DelegateStage(env: Env, f: Faults): Env {
    env.(delegateClosed := true, failed := env.failed || (!env.delegateClosed && !f(CloseDelegate).Fine?))
  }

  function FinalizeStage(t: Task, env: Env, r: Repo, f: Faults): (Env, Repo) {
    if env.finalized then
      (env, r)
    else
      var (rows, ok) := Finalize(t, env, r, f);
      (env.(finalized := ok), rows)
  }

  function DestroyStage(env: Env, f: Faults): Env {
    if !env.destroyed && f(DestroyRuntime).Fine? then env.(destroyed := true, destroys := env.destroys + 1) else env
  }

  /** The third result says whether the step raised. */
  function RecordStage(env: Env, r: Repo, f: Faults): (Env, Repo, bool) {
    if env.destroyed && !env.destructionRecorded then
      var (rows, recorded, raised) := RecordDestruction(r, f);
      (env.(destructionRecorded := recorded), rows, raised)
    else
      (env, r, false)
  }

  /** Each stage runs whatever failed before it, and is not repeated once it has succeeded. */
  function Close(t: Task, env: Env, r: Repo, f: Faults): (Env, Repo, bool) {
    if env.closed then
      (env, r, false)
    else
      var (e1, r1) := FinalizeStage(t, DelegateStage(env, f), r, f);
      var (e2, r2, failing) := RecordStage(DestroyStage(e1, f), r1, f);
      (e2.(closed := e2.finalized && e2.destroyed && e2.destructionRecorded), r2,
       (!env.delegateClosed && !f(CloseDelegate).Fine?) || !e2.finalized || !e2.destroyed || failing)
  }

  // ----- runs -----

  /**
   * Steps observe signals while the delegate is open; another worker may give the episode up. The error that is recorded
   * is the text of the last exception a step raised, so one without a text leaves none, and takes an earlier one away.
   */
  datatype Event =
    | CallClose(faults: Faults)
    | Observe(signal: Signal)
    | StepSucceeds
    | StepFails(named: bool)
    | GiveUp

  function Next(t: Task, s: (Env, Repo), e: Event): (Env, Repo) {
    match e
    case CallClose(f) => (Close(t, s.0, s.1, f).0, Close(t, s.0, s.1, f).1)
    case Observe(signal) => if s.0.delegateClosed then s else (s.0, s.1.(signals := s.1.signals + [signal]))
    case StepSucceeds => if s.0.delegateClosed then s else (s.0.(terminalSuccess := true), s.1)
    case StepFails(named) => if s.0.delegateClosed then s else (s.0.(failed := named), s.1)
    case GiveUp => if Terminal(s.1.status) then s else (s.0, s.1.(status := Failed))
  }

  function Run(t: Task, s: (Env, Repo), events: seq<Event>): (Env, Repo)
    decreases |events|
  {
    if events == [] then s else Run(t, Next(t, s, events[0]), events[1..])
  }

  const OPENED: (Env, Repo) :=
    (Env(false, false, false, false, false, false, false, 0), Repo(Executing, false, [], [], 0))

  // ----- the invariant -----

  ghost predicate ValidTask(t: Task) {
    forall i, j :: 0 <= i < j < |t.specifications| ==>
      t.specifications[i].verifier < t.specifications[j].verifier
  }

  ghost predicate OnePerVerifier(findings: seq<Finding>) {
    forall i, j :: 0 <= i < j < |findings| ==> findings[i].verifier != findings[j].verifier
  }

  ghost predicate Complete(t: Task, r: Repo) {
    && Wanted(t, r.signals).Some?
    && forall i :: 0 <= i < |Wanted(t, r.signals).value| ==> Has(r.findings, Wanted(t, r.signals).value[i].verifier)
  }

  ghost predicate AllLinked(findings: seq<Finding>) {
    forall i :: 0 <= i < |findings| ==> findings[i].linked
  }

  ghost predicate RepoInv(r: Repo) {
    OnePerVerifier(r.findings) && r.evidence <= 1
  }

  /** What a completed finalization leaves behind. */
  ghost predicate FinalizedOk(t: Task, r: Repo) {
    && Terminal(r.status)
    && (r.terminalSuccess ==> Complete(t, r))
    && (t.storesEvidence ==> r.evidence == 1 && AllLinked(r.findings))
  }

  ghost predicate Inv(t: Task, s: (Env, Repo)) {
    var (env, r) := s;
    && RepoInv(r)
    && env.destroys == (if env.destroyed then 1 else 0)
    && (env.destructionRecorded ==> env.destroyed && r.status.Destroyed?)
    && (r.status.Destroyed? ==> env.destroyed)
    && (env.closed <==> env.finalized && env.destroyed && env.destructionRecorded)
    && (env.finalized ==> env.delegateClosed && FinalizedOk(t, r))
  }

  lemma {:induction false} ObservedOrdered(specifications: seq<Specification>, signals: seq<Signal>, least: nat)
    requires forall i, j :: 0 <= i < j < |specifications| ==> specifications[i].verifier < specifications[j].verifier
    requires forall i :: 0 <= i < |specifications| ==> least <= specifications[i].verifier
    ensures var o := Observed(specifications, signals);
            && OnePerVerifier(o)
            && (forall k :: 0 <= k < |o| ==> least <= o[k].verifier && !o[k].linked)
            && forall v: nat :: Has(o, v) <==>
                 HasTerminal(signals, v)
                 && exists i :: 0 <= i < |specifications| && specifications[i].verifier == v
  {
    if specifications != [] {
      var v0 := specifications[0].verifier;
      var o := Observed(specifications, signals);
      var rest := Observed(specifications[1..], signals);
      ObservedOrdered(specifications[1..], signals, v0 + 1);
      forall v: nat
        ensures Has(o, v) <==> (HasTerminal(signals, v)
                                && exists i :: 0 <= i < |specifications| && specifications[i].verifier == v)
      {
        assert Has(o, v) <==> (v == v0 && HasTerminal(signals, v0)) || Has(rest, v) by {
          if Has(rest, v) {
            var k :| 0 <= k < |rest| && rest[k].verifier == v;
            assert o[|o| - |rest| + k] == rest[k];
          }
          if v == v0 && HasTerminal(signals, v0) {
            assert o[0].verifier == v;
          }
        }
        if i :| 0 <= i < |specifications| && specifications[i].verifier == v && i > 0 {
          assert specifications[1..][i - 1].verifier == v;
        }
      }
    }
  }

  lemma WantedOrdered(t: Task, signals: seq<Signal>)
    requires ValidTask(t) && Wanted(t, signals).Some?
    ensures OnePerVerifier(Wanted(t, signals).value)
  {
    ObservedOrdered(t.specifications, signals, 0);
  }

  /** No verifier gains a second finding, and after a loop without failure none is missing. */
  lemma {:induction false} AddMissingKeeps(wanted: seq<Finding>, existing: seq<Finding>, r: Repo, f: Faults)
    requires OnePerVerifier(wanted) && OnePerVerifier(r.findings) && existing <= r.findings
    requires forall i :: 0 <= i < |wanted| ==> Has(r.findings, wanted[i].verifier) ==> Has(existing, wanted[i].verifier)
    ensures var (after, ok) := AddMissing(wanted, existing, r, f);
            && after == r.(findings := after.findings)
            && r.findings <= after.findings
            && OnePerVerifier(after.findings)
            && (ok ==> forall i :: 0 <= i < |wanted| ==> Has(after.findings, wanted[i].verifier))
            && (FaultFree(f) ==> ok)
    decreases |wanted|
  {
    if wanted != [] {
      var (after, ok) := AddMissing(wanted, existing, r, f);
      var v := wanted[0].verifier;
      if Has(existing, v) {
        AddMissingKeeps(wanted[1..], existing, r, f);
        HasLonger(existing, after.findings, v);
      } else {
        var added := r.(findings := r.findings + [wanted[0]]);
        assert added.findings[|r.findings|].verifier == v;
        forall i | 0 <= i < |wanted[1..]| && Has(added.findings, wanted[1..][i].verifier)
          ensures Has(existing, wanted[1..][i].verifier)
        {
          assert wanted[1..][i] == wanted[i + 1];
          var k :| 0 <= k < |added.findings| && added.findings[k].verifier == wanted[i + 1].verifier;
          assert Has(r.findings, wanted[i + 1].verifier) by { assert k < |r.findings|; }
        }
        AddMissingKeeps(wanted[1..], existing, added, f);
        if f(AddFinding(v)).Fine? {
          HasLonger(added.findings, after.findings, v);
        }
      }
      if ok {
        forall i | 0 <= i < |wanted|
          ensures Has(after.findings, wanted[i].verifier)
        {
          assert i > 0 ==> wanted[i] == wanted[1..][i - 1];
        }
      }
    }
  }

  lemma HasLonger(short: seq<Finding>, long: seq<Finding>, verifier: nat)
    requires short <= long && Has(short, verifier)
    ensures Has(long, verifier)
  {
    var k :| 0 <= k < |short| && short[k].verifier == verifier;
    assert long[k].verifier == verifier;
  }

  ghost predicate FaultFree(f: Faults) {
    forall op :: f(op).Fine?
  }

  lemma LinkedHas(findings: seq<Finding>)
    ensures forall v: nat :: Has(Linked(findings), v) <==> Has(findings, v)
    ensures OnePerVerifier(findings) ==> OnePerVerifier(Linked(findings))
    ensures AllLinked(Linked(findings))
  {
    forall v: nat
      ensures Has(Linked(findings), v) <==> Has(findings, v)
    {
      if Has(findings, v) {
        var k :| 0 <= k < |findings| && findings[k].verifier == v;
        assert Linked(findings)[k].verifier == v;
      }
    }
  }

  lemma SettleKeeps(env: Env, r: Repo, f: Faults)
    ensures var (after, ok) := SettleStatus(env, r, f);
            && after == r.(status := after.status, terminalSuccess := after.terminalSuccess)
            && (ok ==> Terminal(after.status))
            && (r.status.Destroyed? <==> after.status.Destroyed?)
            && (FaultFree(f) ==> ok && after.terminalSuccess == Ends(env, r))
  {
  }

  /** An episode that is still open is settled by what its steps came to; one that has ended stays as it is. */
  lemma SettlesOutcome(env: Env, r: Repo, f: Faults)
    ensures var (after, ok) := SettleStatus(env, r, f);
            var open := r.status == Executing || r.status == Verifying;
            && (!open ==> after == r)
            && (open && ok ==>
                  && after.terminalSuccess == env.terminalSuccess
                  && (after.status == Failed <==> env.failed)
                  && (after.status == Succeeded <==> !env.failed && env.terminalSuccess)
                  && (after.status == Exhausted <==> !env.failed && !env.terminalSuccess))
  {
  }

  /** The row claims a success only of an episode with a successful step, and once it has ended. */
  ghost predicate OutcomeOk(env: Env, r: Repo) {
    && (r.terminalSuccess ==> env.terminalSuccess && r.status != Executing && r.status != Verifying)
    && (r.status == Succeeded ==> r.terminalSuccess)
    && (r.status == Exhausted ==> !r.terminalSuccess)
  }

  lemma FinalizeOutcome(t: Task, env: Env, r: Repo, f: Faults)
    requires OutcomeOk(env, r)
    ensures OutcomeOk(env, Finalize(t, env, r, f).0)
  {
    var (settled, ok) := SettleStatus(env, r, f);
    assert OutcomeOk(env, settled);
    if ok && settled.terminalSuccess && Wanted(t, settled.signals).Some? {
      AddMissingFrame(Wanted(t, settled.signals).value, settled.findings, settled, f);
    }
  }

  lemma {:induction false} AddMissingFrame(wanted: seq<Finding>, existing: seq<Finding>, r: Repo, f: Faults)
    ensures var after := AddMissing(wanted, existing, r, f).0; after == r.(findings := after.findings)
    decreases |wanted|
  {
    if wanted != [] {
      AddMissingFrame(wanted[1..], existing, r, f);
      AddMissingFrame(wanted[1..], existing, r.(findings := r.findings + [wanted[0]]), f);
    }
  }

  lemma CloseOutcome(t: Task, env: Env, r: Repo, f: Faults)
    requires OutcomeOk(env, r)
    ensures var (after, repo, _) := Close(t, env, r, f); OutcomeOk(after, repo)
  {
    FinalizeOutcome(t, DelegateStage(env, f), r, f);
  }

  /** Over every run the row's status and success are what the steps came to. */
  lemma {:induction false} OutcomeRun(t: Task, s: (Env, Repo), events: seq<Event>)
    requires OutcomeOk(s.0, s.1)
    ensures var r := Run(t, s, events); OutcomeOk(r.0, r.1)
    decreases |events|
  {
    if events != [] {
      if events[0].CallClose? {
        CloseOutcome(t, s.0, s.1, events[0].faults);
      }
      OutcomeRun(t, Next(t, s, events[0]), events[1..]);
    }
  }

  /** The success flag the episode row has once its status is settled. */
  predicate Ends(env: Env, r: Repo) {
    if Terminal(r.status) then r.terminalSuccess else env.terminalSuccess
  }

  lemma RecordKeeps(t: Task, r: Repo, f: Faults)
    requires ValidTask(t) && OnePerVerifier(r.findings)
    ensures var (after, ok) := RecordFindings(t, r, f);
            && after == r.(findings := after.findings)
            && OnePerVerifier(after.findings)
            && (ok && r.terminalSuccess ==> Complete(t, after))
            && (FaultFree(f) ==> (ok <==> !r.terminalSuccess || Wanted(t, r.signals).Some?))
  {
    if r.terminalSuccess && Wanted(t, r.signals).Some? {
      WantedOrdered(t, r.signals);
      AddMissingKeeps(Wanted(t, r.signals).value, r.findings, r, f);
    }
  }

  lemma StoreKeeps(t: Task, r: Repo, f: Faults)
    requires RepoInv(r) && Terminal(r.status)
    ensures var (after, ok) := StoreEvidence(t, r, f);
            && after == r.(findings := after.findings, evidence := after.evidence)
            && RepoInv(after)
            && (Complete(t, r) ==> Complete(t, after))
            && (ok && t.storesEvidence ==> after.evidence == 1 && AllLinked(after.findings))
            && (FaultFree(f) ==> ok)
  {
    LinkedHas(r.findings);
  }

  /** What is left to do is done unless something fails or an undeclared verifier ended the episode. */
  lemma FinalizeKeeps(t: Task, env: Env, r: Repo, f: Faults)
    requires ValidTask(t) && RepoInv(r)
    ensures var (after, ok) := Finalize(t, env, r, f);
            && RepoInv(after)
            && (r.status.Destroyed? <==> after.status.Destroyed?)
            && (ok ==> FinalizedOk(t, after))
            && (FaultFree(f) ==> Terminal(after.status)
                                 && after.terminalSuccess == Ends(env, r)
                                 && (ok <==> !Ends(env, r) || Wanted(t, r.signals).Some?))
  {
    var (settled, ok) := SettleStatus(env, r, f);
    SettleKeeps(env, r, f);
    if ok {
      var (recorded, ok') := RecordFindings(t, settled, f);
      RecordKeeps(t, settled, f);
      if ok' {
        StoreKeeps(t, recorded, f);
      }
    }
  }

  /** The stages up to the destruction of the runtime. */
  ghost predicate Partial(t: Task, env: Env, r: Repo) {
    && RepoInv(r)
    && env.destroys == (if env.destroyed then 1 else 0)
    && (env.destructionRecorded ==> env.destroyed && r.status.Destroyed?)
    && (r.status.Destroyed? ==> env.destroyed)
    && (env.finalized ==> env.delegateClosed && FinalizedOk(t, r))
  }

  lemma FinalizeStageKeeps(t: Task, env: Env, r: Repo, f: Faults)
    requires ValidTask(t) && Partial(t, env, r) && env.delegateClosed
    ensures var (e1, r1) := FinalizeStage(t, env, r, f); Partial(t, e1, r1) && e1 == env.(finalized := e1.finalized)
  {
    if !env.finalized {
      FinalizeKeeps(t, env, r, f);
    }
  }

  lemma RecordStageKeeps(t: Task, env: Env, r: Repo, f: Faults)
    requires Partial(t, env, r)
    ensures var (e1, r1, _) := RecordStage(env, r, f);
            Partial(t, e1, r1) && e1 == env.(destructionRecorded := e1.destructionRecorded)
  {
  }

  lemma CloseKeeps(t: Task, s: (Env, Repo), f: Faults)
    requires ValidTask(t) && Inv(t, s)
    ensures Inv(t, Next(t, s, CallClose(f)))
  {
    var (env, r) := s;
    if !env.closed {
      var (e1, r1) := FinalizeStage(t, DelegateStage(env, f), r, f);
      FinalizeStageKeeps(t, DelegateStage(env, f), r, f);
      RecordStageKeeps(t, DestroyStage(e1, f), r1, f);
    }
  }

  lemma {:induction false} InvRun(t: Task, s: (Env, Repo), events: seq<Event>)
    requires ValidTask(t) && Inv(t, s)
    ensures Inv(t, Run(t, s, events))
    decreases |events|
  {
    if events != [] {
      if events[0].CallClose? {
        CloseKeeps(t, s, events[0].faults);
      }
      InvRun(t, Next(t, s, events[0]), events[1..]);
    }
  }

  // ----- main results -----

  /** Under any failures, in any order: one destruction, one finding a verifier, one evidence row. */
  lemma ClosingNeverRepeats(t: Task, events: seq<Event>)
    requires ValidTask(t)
    ensures var (env, r) := Run(t, OPENED, events);
            && env.destroys <= 1
            && OnePerVerifier(r.findings)
            && r.evidence <= 1
            && (r.status == Destroyed ==> env.destroys == 1)
            && (env.closed ==> env.destroys == 1 && r.status.Destroyed? && FinalizedOk(t, r))
  {
    InvRun(t, OPENED, events);
  }

  /**
   * After any history a call in which nothing fails ends closed, with the episode destroyed,
   * exactly when the findings of a successful episode can be named; it destroys the runtime either way.
   */
  lemma FaultFreeCloseIff(t: Task, events: seq<Event>, f: Faults)
    requires ValidTask(t) && FaultFree(f)
    ensures var (env, r) := Run(t, OPENED, events);
            var (after, repo, raised) := Close(t, env, r, f);
            && after.destroyed && after.destructionRecorded && repo.status.Destroyed?
            && (after.closed <==> env.finalized || !Ends(env, r) || Wanted(t, r.signals).Some?)
            && (raised <==> !after.closed)
            && (after.closed && repo.terminalSuccess ==> Complete(t, repo))
            && (after.closed && t.storesEvidence ==> repo.evidence == 1 && AllLinked(repo.findings))
  {
    InvRun(t, OPENED, events);
    var (env, r) := Run(t, OPENED, events);
    CloseKeeps(t, (env, r), f);
    if !env.closed && !env.finalized {
      FinalizeKeeps(t, DelegateStage(env, f), r, f);
    }
  }

  /** A successful episode that an undeclared verifier ended: closing without any failure destroys it and never closes it. */
  lemma UndeclaredVerifierStaysOpen(t: Task, signal: Signal, f: Faults)
    requires ValidTask(t) && FaultFree(f)
    requires signal.terminal && !Declared(t, signal.verifier)
    ensures var (env, r) := Run(t, OPENED, [Observe(signal), StepSucceeds]);
            var (after, repo, raised) := Close(t, env, r, f);
            && raised && !after.closed && after.destroyed && repo.status.Destroyed? && repo.findings == []
            && !Close(t, after, repo, f).0.closed
  {
    var events := [Observe(signal), StepSucceeds];
    var observed := Next(t, OPENED, events[0]);
    var (env, r) := Next(t, observed, events[1]);
    assert events[1..] == [StepSucceeds] && events[1..][1..] == [];
    assert Run(t, OPENED, events) == (env, r) by {
      assert Run(t, observed, events[1..]) == Run(t, (env, r), []);
    }
    assert r.signals[0] == signal;
    FaultFreeCloseIff(t, events, f);
    assert env.terminalSuccess && !AllDeclared(t, r.signals);
    var (after, repo, _) := Close(t, env, r, f);
    assert !AllDeclared(t, repo.signals) && repo.terminalSuccess && repo.findings == [];
  }

  /** What a complete set of findings means in terms of the signals. */
  lemma CompleteMeans(t: Task, r: Repo, verifier: nat)
    requires ValidTask(t) && Complete(t, r) && HasTerminal(r.signals, verifier)
    ensures Declared(t, verifier) && Has(r.findings, verifier)
  {
    ObservedOrdered(t.specifications, r.signals, 0);
    var w := Wanted(t, r.signals).value;
    assert Has(w, verifier);
  }

  // ----- findings -----

  /** The severity of a verifier is the greatest of its terminal signals, at least zero. */
  lemma {:induction false} SeverityIs(signals: seq<Signal>, verifier: nat)
    ensures var most := Severity(signals, verifier);
            && most >= 0.0
            && (forall i :: 0 <= i < |signals| && signals[i].terminal && signals[i].verifier == verifier ==>
                  signals[i].severity <= most)
            && (most == 0.0 || exists i :: 0 <= i < |signals| && signals[i].terminal && signals[i].verifier == verifier
                                           && signals[i].severity == most)
  {
    if signals != [] {
      SeverityIs(signals[..|signals| - 1], verifier);
    }
  }

  /** A finding before it is linked, of its verifier's severity. */
  predicate Rated(signals: seq<Signal>, x: Finding) {
    x == Finding(x.verifier, Severity(signals, x.verifier), false)
  }

  lemma {:induction false} ObservedSeverities(specifications: seq<Specification>, signals: seq<Signal>)
    ensures forall x :: x in Observed(specifications, signals) ==> Rated(signals, x)
  {
    if specifications != [] {
      var v := specifications[0].verifier;
      ObservedSeverities(specifications[1..], signals);
      assert Rated(signals, Finding(v, Severity(signals, v), false));
    }
  }

  predicate TerminalOf(signals: seq<Signal>, verifier: nat) {
    exists i :: 0 <= i < |signals| && signals[i].terminal && signals[i].verifier == verifier
  }

  predicate Specified(t: Task, verifier: nat) {
    exists j :: 0 <= j < |t.specifications| && t.specifications[j].verifier == verifier
  }

  /**
   * The findings a successful episode must have: one for each verifier with a terminal signal, of its severity, when all
   * of these are specified; without any terminal signal the only specification's default.
   */
  lemma WantedIs(t: Task, signals: seq<Signal>)
    requires ValidTask(t)
    ensures var ended := exists i :: 0 <= i < |signals| && signals[i].terminal;
            var unknown := exists i :: 0 <= i < |signals| && signals[i].terminal && !Specified(t, signals[i].verifier);
            && (Wanted(t, signals).None? <==> unknown || (!ended && |t.specifications| != 1))
            && (Wanted(t, signals).Some? ==>
                  var w := Wanted(t, signals).value;
                  if ended then
                    && OnePerVerifier(w)
                    && (forall v: nat :: TerminalOf(signals, v) <==> exists k :: 0 <= k < |w| && w[k].verifier == v)
                    && (forall x :: x in w ==> Rated(signals, x))
                  else
                    w == [Finding(t.specifications[0].verifier, t.specifications[0].severity, false)])
  {
    ObservedOrdered(t.specifications, signals, 0);
    ObservedSeverities(t.specifications, signals);
    if AllDeclared(t, signals) && AnyTerminal(signals) {
      var w := Wanted(t, signals).value;
      forall v: nat
        ensures TerminalOf(signals, v) <==> exists k :: 0 <= k < |w| && w[k].verifier == v
      {
        assert TerminalOf(signals, v) <==> HasTerminal(signals, v);
        assert Has(w, v) <==> exists k :: 0 <= k < |w| && w[k].verifier == v;
        if i :| 0 <= i < |signals| && signals[i].terminal && signals[i].verifier == v {
          assert Declared(t, v);
        }
      }
    }
  }

  /** The loop succeeds exactly when no addition fails, and adds nothing but what is wanted and missing. */
  lemma {:induction false} AddMissingAnswers(wanted: seq<Finding>, existing: seq<Finding>, r: Repo, f: Faults)
    ensures var (after, ok) := AddMissing(wanted, existing, r, f);
            && (ok <==> forall i :: 0 <= i < |wanted| ==> Has(existing, wanted[i].verifier) || f(AddFinding(wanted[i].verifier)) == Fine)
            && r.findings <= after.findings
            && (forall k :: |r.findings| <= k < |after.findings| ==>
                  after.findings[k] in wanted && !Has(existing, after.findings[k].verifier))
            && (ok ==> forall i :: 0 <= i < |wanted| && !Has(existing, wanted[i].verifier) ==> wanted[i] in after.findings)
    decreases |wanted|
  {
    if wanted != [] {
      var v := wanted[0].verifier;
      var rest := wanted[1..];
      if Has(existing, v) {
        AddMissingAnswers(rest, existing, r, f);
      } else {
        var added := r.(findings := r.findings + [wanted[0]]);
        AddMissingAnswers(rest, existing, added, f);
        assert added.findings[|r.findings|] == wanted[0];
      }
      assert forall i :: 0 < i < |wanted| ==> wanted[i] in rest;
      assert wanted == [wanted[0]] + rest;
    }
  }

  // ----- which operations a call needs -----

  predicate Open(r: Repo) {
    r.status == Executing || r.status == Verifying
  }

  predicate SettleNeeds(r: Repo, f: Faults) {
    && f(ReadStatus) == Fine && f(ReadVerifying) == Fine
    && (r.status == Executing ==> f(MarkVerifying) == Fine)
    && (Open(r) ==> f(MarkOutcome) == Fine)
  }

  predicate RecordNeeds(t: Task, succeeded: bool, r: Repo, f: Faults) {
    && f(ReadOutcome) == Fine
    && (succeeded ==>
          && f(ReadTask) == Fine && f(ReadFindings) == Fine && Wanted(t, r.signals).Some?
          && forall i :: 0 <= i < |Wanted(t, r.signals).value| ==>
               || Has(r.findings, Wanted(t, r.signals).value[i].verifier)
               || f(AddFinding(Wanted(t, r.signals).value[i].verifier)) == Fine)
  }

  predicate StoreNeeds(t: Task, r: Repo, f: Faults) {
    t.storesEvidence ==> f(ListEvidence) == Fine && f(if r.evidence > 0 then LinkEvidence else BuildEvidence) == Fine
  }

  /** What a finalization needs to succeed: the operations for what is left to do, and findings that can be named. */
  predicate FinalizeNeeds(t: Task, env: Env, r: Repo, f: Faults) {
    && SettleNeeds(r, f)
    && RecordNeeds(t, if Open(r) then env.terminalSuccess else r.terminalSuccess, r, f)
    && StoreNeeds(t, r, f)
  }

  lemma SettleAnswers(env: Env, r: Repo, f: Faults)
    ensures var (after, ok) := SettleStatus(env, r, f);
            && (ok <==> SettleNeeds(r, f))
            && after == r.(status := after.status, terminalSuccess := after.terminalSuccess)
            && (ok ==> after.terminalSuccess == if Open(r) then env.terminalSuccess else r.terminalSuccess)
            && (ok ==> !Open(after))
  {
  }

  lemma RecordAnswers(t: Task, r: Repo, f: Faults)
    ensures var (after, ok) := RecordFindings(t, r, f);
            && (ok <==> RecordNeeds(t, r.terminalSuccess, r, f))
            && after == r.(findings := after.findings)
  {
    if r.terminalSuccess && Wanted(t, r.signals).Some? {
      AddMissingAnswers(Wanted(t, r.signals).value, r.findings, r, f);
      AddMissingFrame(Wanted(t, r.signals).value, r.findings, r, f);
    }
  }

  /** The evidence row is written once, unless its building fails before; the findings are linked when nothing fails. */
  lemma EvidenceAnswers(t: Task, r: Repo, f: Faults)
    requires !Open(r)
    ensures var (after, ok) := StoreEvidence(t, r, f);
            var builds := t.storesEvidence && f(ListEvidence) == Fine && r.evidence == 0;
            && (ok <==> StoreNeeds(t, r, f))
            && after.evidence == (if builds && f(BuildEvidence) != Before then 1 else r.evidence)
            && (ok && t.storesEvidence ==> AllLinked(after.findings))
            && (builds && !ok ==> after.findings == r.findings)
            && after == r.(evidence := after.evidence, findings := after.findings)
  {
  }

  /** A finalization succeeds exactly when none of the operations it needs fails and the findings can be named. */
  lemma FinalizeAnswers(t: Task, env: Env, r: Repo, f: Faults)
    ensures Finalize(t, env, r, f).1 <==> FinalizeNeeds(t, env, r, f)
  {
    var (settled, ok) := SettleStatus(env, r, f);
    SettleAnswers(env, r, f);
    if ok {
      RecordAnswers(t, settled, f);
    }
  }

  /** The destruction is recorded when it can be read, and either was recorded before or can be marked on an ended row. */
  lemma RecordDestructionAnswers(r: Repo, f: Faults)
    ensures var (after, recorded, raised) := RecordDestruction(r, f);
            && (recorded <==> f(ReadDestroyed) == Fine && (r.status == Destroyed || (!Open(r) && f(MarkDestroyed) == Fine)))
            && (raised <==> f(ReadDestroyed) != Fine || (r.status != Destroyed && !Open(r) && f(MarkDestroyed) != Fine))
            && (recorded ==> after.status == Destroyed)
            && after == r.(status := after.status)
            && (after.status != r.status ==> after.status == Destroyed && f(MarkDestroyed) != Before)
  {
  }

  /**
   * Whatever fails: a call ends closed exactly when each stage had succeeded before or succeeds now, and raises exactly
   * when a stage that was still to do failed. The delegate is closed, and the runtime destroyed, in either case.
   */
  lemma CloseAnswers(t: Task, env: Env, r: Repo, f: Faults)
    requires ValidTask(t) && Inv(t, (env, r)) && !env.closed
    ensures var (after, repo, raised) := Close(t, env, r, f);
            var rows := if env.finalized then r else Finalize(t, env.(delegateClosed := true,
                          failed := env.failed || (!env.delegateClosed && f(CloseDelegate) != Fine)), r, f).0;
            && after.delegateClosed
            && (after.failed <==> env.failed || (!env.delegateClosed && f(CloseDelegate) != Fine))
            && (after.finalized <==> env.finalized || FinalizeNeeds(t, env, r, f))
            && (after.destroyed <==> env.destroyed || f(DestroyRuntime) == Fine)
            && (after.destructionRecorded <==>
                  || env.destructionRecorded
                  || (after.destroyed && f(ReadDestroyed) == Fine
                      && (rows.status == Destroyed || (!Open(rows) && f(MarkDestroyed) == Fine))))
            && (after.closed <==> after.finalized && after.destroyed && after.destructionRecorded)
            && (raised <==>
                  || (!env.delegateClosed && f(CloseDelegate) != Fine) || !after.finalized || !after.destroyed
                  || (!env.destructionRecorded
                      && (f(ReadDestroyed) != Fine
                          || (rows.status != Destroyed && !Open(rows) && f(MarkDestroyed) != Fine))))
  {
    var delegated := DelegateStage(env, f);
    FinalizeAnswers(t, delegated, r, f);
    var (e1, r1) := FinalizeStage(t, delegated, r, f);
    assert e1 == delegated.(finalized := e1.finalized);
    assert e1.finalized <==> env.finalized || FinalizeNeeds(t, env, r, f);
    RecordDestructionAnswers(r1, f);
    StagesAnswer(e1, r1, f);
  }

  lemma StagesAnswer(env: Env, r: Repo, f: Faults)
    ensures var (after, repo, failing) := RecordStage(DestroyStage(env, f), r, f);
            && after == env.(destroyed := after.destroyed, destroys := after.destroys,
                             destructionRecorded := after.destructionRecorded)
            && (after.destroyed <==> env.destroyed || f(DestroyRuntime) == Fine)
            && (after.destructionRecorded <==>
                  env.destructionRecorded || (after.destroyed && RecordDestruction(r, f).1))
            && (failing <==> after.destroyed && !env.destructionRecorded && RecordDestruction(r, f).2)
  {
  }

  // ----- what the steps came to -----

  function ClosingDelegate(f: Faults): Fault {
    f(CloseDelegate)
  }

  lemma FailedStep(t: Task, s: (Env, Repo), e: Event)
    requires s.0.closed ==> s.0.delegateClosed
    ensures var r := Next(t, s, e).0;
            && (r.failed <==> if e.StepFails? && !s.0.delegateClosed then e.named
                              else s.0.failed || (e.CallClose? && !s.0.delegateClosed && ClosingDelegate(e.faults) != Fine))
            && (r.terminalSuccess <==> s.0.terminalSuccess || (e.StepSucceeds? && !s.0.delegateClosed))
            && (r.delegateClosed <==> s.0.delegateClosed || e.CallClose?)
            && (r.closed ==> r.delegateClosed)
  {
    if e.CallClose? {
      CloseFlags(t, s.0, s.1, e.faults);
    }
  }

  lemma CloseFlags(t: Task, env: Env, r: Repo, f: Faults)
    requires env.closed ==> env.delegateClosed
    ensures var after := Close(t, env, r, f).0;
            && after.delegateClosed && after.terminalSuccess == env.terminalSuccess
            && (after.failed <==> env.failed || (!env.delegateClosed && f(CloseDelegate) != Fine))
  {
    var delegated := DelegateStage(env, f);
    var (e1, r1) := FinalizeStage(t, delegated, r, f);
    assert e1 == delegated.(finalized := e1.finalized);
    StagesAnswer(e1, r1, f);
  }

  lemma {:induction false} RunLast(t: Task, s: (Env, Repo), events: seq<Event>)
    requires events != []
    ensures var n := |events| - 1; Run(t, s, events) == Next(t, Run(t, s, events[..n]), events[n])
    decreases |events|
  {
    if |events| > 1 {
      var n := |events| - 1;
      assert events[1..][..n - 1] == events[..n][1..];
      RunLast(t, Next(t, s, events[0]), events[1..]);
    }
  }

  /** Before the first call to close. */
  predicate StillOpen(events: seq<Event>, k: nat) {
    k <= |events| && forall j :: 0 <= j < k ==> !events[j].CallClose?
  }

  /** The last step that raised before the first close, with an exception that had a text. */
  predicate LastError(events: seq<Event>, k: nat) {
    && k < |events| && StillOpen(events, k) && events[k].StepFails? && events[k].named
    && forall j :: k < j < |events| && StillOpen(events, j) ==> !events[j].StepFails?
  }

  /** The first close, when it could not close the delegate. */
  predicate CloseError(events: seq<Event>, k: nat) {
    k < |events| && StillOpen(events, k) && events[k].CallClose? && ClosingDelegate(events[k].faults) != Fine
  }

  predicate EndsFailed(events: seq<Event>) {
    (exists k :: 0 <= k < |events| && LastError(events, k)) || (exists k :: 0 <= k < |events| && CloseError(events, k))
  }

  lemma EndsFailedNext(events: seq<Event>, e: Event)
    ensures EndsFailed(events + [e])
            <==> if e.StepFails? && StillOpen(events, |events|) then e.named
                 else EndsFailed(events)
                      || (e.CallClose? && StillOpen(events, |events|) && ClosingDelegate(e.faults) != Fine)
  {
    var now, n := events + [e], |events|;
    assert now[n] == e;
    forall k: nat | k <= n ensures StillOpen(now, k) == StillOpen(events, k) {
      assert forall j :: 0 <= j < k ==> now[j] == events[j];
    }
    forall k | 0 <= k < n ensures CloseError(now, k) == CloseError(events, k) {
      assert now[k] == events[k];
    }
    assert CloseError(now, n) <==> e.CallClose? && StillOpen(events, n) && ClosingDelegate(e.faults) != Fine;
    if e.StepFails? && StillOpen(events, n) {
      assert forall k :: 0 <= k < n ==> !LastError(now, k) && !CloseError(now, k);
      assert LastError(now, n) <==> e.named;
    } else {
      forall k | 0 <= k < n ensures LastError(now, k) == LastError(events, k) {
        ErrorsStay(events, e, k);
      }
    }
  }

  lemma ErrorsStay(events: seq<Event>, e: Event, k: nat)
    requires k < |events| && !(e.StepFails? && StillOpen(events, |events|))
    ensures LastError(events + [e], k) == LastError(events, k)
  {
    var now, n := events + [e], |events|;
    assert forall j :: 0 <= j < n ==> now[j] == events[j];
    forall j: nat | j <= n ensures StillOpen(now, j) == StillOpen(events, j) {
    }
    assert now[n] == e;
  }

  predicate SucceedsAt(events: seq<Event>, k: nat) {
    k < |events| && StillOpen(events, k) && events[k].StepSucceeds?
  }

  /**
   * Over every run: the episode counts as failed exactly when the last step that raised before the first close left a
   * text, or that close could not close the delegate; as successful exactly when a step succeeded before it.
   */
  lemma {:induction false} OutcomeIs(t: Task, events: seq<Event>)
    ensures var env := Run(t, OPENED, events).0;
            && (env.failed <==> EndsFailed(events))
            && (env.terminalSuccess <==> exists k :: 0 <= k < |events| && SucceedsAt(events, k))
            && (env.delegateClosed <==> !StillOpen(events, |events|))
            && (env.closed ==> env.delegateClosed)
    decreases |events|
  {
    if events != [] {
      var n := |events| - 1;
      var before := Run(t, OPENED, events[..n]);
      assert events == events[..n] + [events[n]];
      OutcomeIs(t, events[..n]);
      RunLast(t, OPENED, events);
      FailedStep(t, before, events[n]);
      EndsFailedNext(events[..n], events[n]);
      SuccessNext(events[..n], events[n]);
    }
  }

  lemma SuccessNext(events: seq<Event>, e: Event)
    ensures var now, n := events + [e], |events|;
            && ((exists k :: 0 <= k < |now| && SucceedsAt(now, k))
                <==> (exists k :: 0 <= k < n && SucceedsAt(events, k)) || (e.StepSucceeds? && StillOpen(events, n)))
            && (StillOpen(now, |now|) <==> StillOpen(events, n) && !e.CallClose?)
  {
    var now, n := events + [e], |events|;
    assert now[n] == e;
    assert forall j :: 0 <= j < n ==> now[j] == events[j];
    forall k: nat | k <= n ensures StillOpen(now, k) == StillOpen(events, k) {
    }
    forall k | 0 <= k < n ensures SucceedsAt(now, k) == SucceedsAt(events, k) {
    }
    assert SucceedsAt(now, n) <==> e.StepSucceeds? && StillOpen(events, n);
  }

  /** A step that raised with a text, one that raised without, and a success: settled as a success. */
  lemma UnnamedErrorIsForgotten(t: Task, f: Faults)
    requires FaultFree(f)
    ensures var (env, r) := Run(t, OPENED, [StepFails(true), StepFails(false), StepSucceeds]);
            var settled := SettleStatus(env, r, f).0;
            !env.failed && settled.status == Succeeded && settled.terminalSuccess
  {
    var events := [StepFails(true), StepFails(false), StepSucceeds];
    OutcomeIs(t, events);
    assert forall k: nat :: k <= 3 ==> StillOpen(events, k);
    assert !LastError(events, 0) by {
      assert events[1].StepFails? && StillOpen(events, 1);
    }
    assert SucceedsAt(events, 2);
    RunRows(t, events);
  }

  lemma RunRows(t: Task, events: seq<Event>)
    requires events == [StepFails(true), StepFails(false), StepSucceeds]
    ensures Run(t, OPENED, events).1 == OPENED.1
  {
    var one := Next(t, OPENED, events[0]);
    var two := Next(t, one, events[1]);
    assert events[1..] == [StepFails(false), StepSucceeds] && events[1..][1..] == [StepSucceeds] && [StepSucceeds][1..] == [];
    assert Run(t, one, events[1..]) == Run(t, two, [StepSucceeds]);
    assert Run(t, two, [StepSucceeds]) == Next(t, two, StepSucceeds);
  }

  /** An episode another worker gave up stays failed, without success, until it is destroyed. */
  lemma {:induction false} GivenUpStaysFailed(t: Task, s: (Env, Repo), events: seq<Event>)
    requires OutcomeOk(s.0, s.1) && Open(s.1)
    ensures var r := Run(t, Next(t, s, GiveUp), events).1;
            !r.terminalSuccess && (r.status == Failed || r.status == Destroyed)
  {
    EndedStays(t, Next(t, s, GiveUp), events);
  }

  lemma {:induction false} EndedStays(t: Task, s: (Env, Repo), events: seq<Event>)
    requires !Open(s.1)
    ensures var r := Run(t, s, events).1;
            r.terminalSuccess == s.1.terminalSuccess && (r.status == s.1.status || r.status == Destroyed)
    decreases |events|
  {
    if events != [] {
      if events[0].CallClose? {
        EndedClose(t, s.0, s.1, events[0].faults);
      }
      EndedStays(t, Next(t, s, events[0]), events[1..]);
    }
  }

  lemma EndedClose(t: Task, env: Env, r: Repo, f: Faults)
    requires !Open(r)
    ensures var after := Close(t, env, r, f).1;
            after.terminalSuccess == r.terminalSuccess && (after.status == r.status || after.status == Destroyed)
  {
    var (e1, r1) := FinalizeStage(t, DelegateStage(env, f), r, f);
    EndedFinalize(t, DelegateStage(env, f), r, f);
    assert r1.terminalSuccess == r.terminalSuccess && r1.status == r.status;
    RecordDestructionAnswers(r1, f);
  }

  lemma EndedFinalize(t: Task, env: Env, r: Repo, f: Faults)
    requires !Open(r)
    ensures var after := Finalize(t, env, r, f).0; after.terminalSuccess == r.terminalSuccess && after.status == r.status
  {
    var settled := SettleStatus(env, r, f).0;
    if settled.terminalSuccess && Wanted(t, settled.signals).Some? {
      AddMissingFrame(Wanted(t, settled.signals).value, settled.findings, settled, f);
    }
  }
}