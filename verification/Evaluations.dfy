/** The restartable scheduler of paired evaluation sessions, run any number of times and at the same time. */
module Evaluations {
  import opened Prelude

  datatype Case = Case(target: nat, variant: nat, split: nat)

  datatype Suite = Suite(cases: seq<Case>, seeds: seq<int>)

  datatype Role = Baseline | Candidate

  /** Pairs are identified by the position of their case and their seed. */
  type PairId = (nat, int)

  datatype Key = Key(pair: PairId, role: Role)

  /** What the rows of a session and of its commands say once it is terminal. */
  datatype Outcome = Outcome(success: bool, failed: bool)

  /** One invocation billed to a session's campaign. */
  datatype Charge = Charge(key: Key, cost: real)

  datatype Sample = Sample(pair: PairId, case_: Case, outcome: Outcome, cost: real)

  datatype Report = Report(baseline: seq<Sample>, candidate: seq<Sample>)

  /** A session is `None` until it is terminal. */
  type Sessions = map<Key, Option<Outcome>>

  datatype Store = Store(sessions: Sessions, charges: seq<Charge>, cases: set<PairId>, result: Option<Report>)

  datatype Phase = CreateBaseline | CreateCandidate | Check | Publish | Ended

  /** `readings` is a history variable: how many charges there were as each pair was sampled. */
  datatype Job = Job(position: nat, phase: Phase, baseline: seq<Sample>, candidate: seq<Sample>, readings: seq<nat>)

  datatype System = System(store: Store, jobs: seq<Job>)

  /** Any step of a job can fail, and the job can stop at any point; a session can be charged at any time, ended or not. */
  datatype Event =
    | StartJob
    | Advance(job: nat, works: bool)
    | EndSession(key: Key, outcome: Outcome)
    | Usage(key: Key, cost: real)

  // ----- pairs -----

  /** A pair to be run, with the case it belongs to. */
  datatype Planned = Planned(pair: PairId, case_: Case)

  type Plan = seq<Planned>

  predicate ValidSuite(s: Suite) {
    && s.cases != [] && s.seeds != []
    && forall i, j :: 0 <= i < j < |s.seeds| ==> s.seeds[i] != s.seeds[j]
  }

  function CasePairs(index: nat, case_: Case, seeds: seq<int>): Plan {
    seq(|seeds|, i requires 0 <= i < |seeds| => Planned((index, seeds[i]), case_))
  }

  /** Cases in order, and the seeds in order within each. */
  function Pairs(cases: seq<Case>, seeds: seq<int>): Plan {
    if cases == [] then
      []
    else
      var n := |cases| - 1;
      Pairs(cases[..n], seeds) + CasePairs(n, cases[n], seeds)
  }

  predicate ValidPlan(p: Plan) {
    && p != []
    && forall i, j :: 0 <= i < j < |p| ==> p[i].pair != p[j].pair
  }

  lemma PairsUpTo(s: Suite, k: nat)
    requires 0 < k <= |s.cases|
    ensures Pairs(s.cases[..k], s.seeds)
            == Pairs(s.cases[..k - 1], s.seeds) + CasePairs(k - 1, s.cases[k - 1], s.seeds)
  {
    assert s.cases[..k][..k - 1] == s.cases[..k - 1];
  }

  /** Unique seeds give unique pairs, each with its case. */
  lemma {:induction false} PairsDistinct(s: Suite, k: nat)
    requires ValidSuite(s) && k <= |s.cases|
    ensures var p := Pairs(s.cases[..k], s.seeds);
            && (k > 0 ==> ValidPlan(p))
            && forall i :: 0 <= i < |p| ==> p[i].pair.0 < k && p[i].case_ == s.cases[p[i].pair.0]
  {
    if k > 0 {
      PairsDistinct(s, k - 1);
      PairsUpTo(s, k);
    }
  }

  lemma {:induction false} PairsCover(s: Suite, k: nat, c: nat, m: nat)
    requires k <= |s.cases| && c < k && m < |s.seeds|
    ensures Planned((c, s.seeds[m]), s.cases[c]) in Pairs(s.cases[..k], s.seeds)
  {
    PairsUpTo(s, k);
    if c < k - 1 {
      PairsCover(s, k - 1, c, m);
    } else {
      var last := CasePairs(k - 1, s.cases[k - 1], s.seeds);
      assert last[m] == Planned((c, s.seeds[m]), s.cases[c]);
    }
  }

  /** The plan of a suite names each case with each seed, once. */
  lemma PairsValid(s: Suite)
    requires ValidSuite(s)
    ensures var p := Pairs(s.cases, s.seeds);
            && ValidPlan(p)
            && forall c: nat, m: nat :: c < |s.cases| && m < |s.seeds| ==> Planned((c, s.seeds[m]), s.cases[c]) in p
  {
    assert s.cases[..|s.cases|] == s.cases;
    PairsDistinct(s, |s.cases|);
    forall c: nat, m: nat | c < |s.cases| && m < |s.seeds|
      ensures Planned((c, s.seeds[m]), s.cases[c]) in Pairs(s.cases, s.seeds)
    {
      PairsCover(s, |s.cases|, c, m);
    }
  }

  // ----- steps -----

  function CreateSession(m: Sessions, key: Key): Sessions {
    if key in m then m else m[key := None]
  }

  predicate IsTerminal(m: Sessions, key: Key) {
    key in m && m[key].Some?
  }

  predicate PairTerminal(m: Sessions, pair: PairId) {
    IsTerminal(m, Key(pair, Baseline)) && IsTerminal(m, Key(pair, Candidate))
  }

  /** What a campaign has been charged. */
  function CostOf(charges: seq<Charge>, key: Key): real {
    if charges == [] then
      0.0
    else
      var last := charges[|charges| - 1];
      CostOf(charges[..|charges| - 1], key) + if last.key == key then last.cost else 0.0
  }

  function SampleOf(p: Plan, m: Sessions, charges: seq<Charge>, i: nat, role: Role): Sample
    requires i < |p| && PairTerminal(m, p[i].pair)
  {
    var session := if role.Baseline? then m[Key(p[i].pair, Baseline)] else m[Key(p[i].pair, Candidate)];
    Sample(p[i].pair, p[i].case_, session.value, CostOf(charges, Key(p[i].pair, role)))
  }

  /** What the paired comparison demands of its two sides. */
  predicate Comparable(r: Report) {
    && r.baseline != [] && r.candidate != []
    && Unique(r.baseline) && Unique(r.candidate)
    && (forall i :: 0 <= i < |r.baseline| ==> Matched(r.baseline[i], r.candidate))
    && (forall i :: 0 <= i < |r.candidate| ==> Matched(r.candidate[i], r.baseline))
  }

  predicate Unique(samples: seq<Sample>) {
    forall i, j :: 0 <= i < j < |samples| ==> samples[i].pair != samples[j].pair
  }

  /** The other side has a sample of the same pair, and every such sample agrees on the case. */
  predicate Matched(x: Sample, others: seq<Sample>) {
    && (exists j :: 0 <= j < |others| && others[j].pair == x.pair)
    && (forall j :: 0 <= j < |others| && others[j].pair == x.pair ==> others[j].case_ == x.case_)
  }

  function PublishTx(d: Store, r: Report): Store {
    if d.result.Some? || !Comparable(r) then d else d.(result := Some(r))
  }

  function AdvanceTx(p: Plan, d: Store, j: Job): (Store, Job) {
    if j.phase.Ended? then
      (d, j)
    else if j.phase.Publish? then
      (PublishTx(d, Report(j.baseline, j.candidate)), j.(phase := Ended))
    else if j.position >= |p| then
      (d, j.(phase := Publish))
    else
      var pair := p[j.position].pair;
      match j.phase
      case CreateBaseline =>
        (d.(sessions := CreateSession(d.sessions, Key(pair, Baseline))), j.(phase := CreateCandidate))
      case CreateCandidate =>
        (d.(sessions := CreateSession(d.sessions, Key(pair, Candidate))), j.(phase := Check))
      case Check =>
        var recorded := d.(cases := d.cases + {pair});
        if PairTerminal(d.sessions, pair) then
          (recorded, Job(j.position + 1, CreateBaseline,
                         j.baseline + [SampleOf(p, d.sessions, d.charges, j.position, Baseline)],
                         j.candidate + [SampleOf(p, d.sessions, d.charges, j.position, Candidate)],
                         j.readings + [|d.charges|]))
        else
          (recorded, j.(phase := Ended))
  }

  /** A job that finds the result already there has nothing to do. */
  function Next(p: Plan, sys: System, e: Event): System {
    match e
    case StartJob =>
      if sys.store.result.Some? then sys else sys.(jobs := sys.jobs + [NEW_JOB])
    case Advance(k, works) =>
      if k >= |sys.jobs| then
        sys
      else if !works then
        sys.(jobs := sys.jobs[k := sys.jobs[k].(phase := Ended)])
      else
        var (d, j) := AdvanceTx(p, sys.store, sys.jobs[k]);
        System(d, sys.jobs[k := j])
    case EndSession(key, outcome) =>
      sys.(store := sys.store.(sessions := EndTx(sys.store.sessions, key, outcome)))
    case Usage(key, cost) =>
      if key in sys.store.sessions && cost >= 0.0 then
        sys.(store := sys.store.(charges := sys.store.charges + [Charge(key, cost)]))
      else
        sys
  }

  /** One job on its own, from where it stands to where it stops. */
  function Alone(p: Plan, d: Store, j: Job): Store
    decreases Remaining(p, j)
  {
    if j.phase.Ended? then d else var (d', j') := AdvanceTx(p, d, j); Alone(p, d', j')
  }

  function Remaining(p: Plan, j: Job): nat {
    match j.phase
    case Ended => 0
    case Publish => 1
    case Check => if j.position < |p| then 4 * (|p| - j.position) else 2
    case CreateCandidate => if j.position < |p| then 4 * (|p| - j.position) + 1 else 2
    case CreateBaseline => if j.position < |p| then 4 * (|p| - j.position) + 2 else 2
  }

  function EndTx(m: Sessions, key: Key, outcome: Outcome): Sessions {
    if key in m && m[key].None? then m[key := Some(outcome)] else m
  }

  function Run(p: Plan, sys: System, events: seq<Event>): System
    decreases |events|
  {
    if events == [] then sys else Run(p, Next(p, sys, events[0]), events[1..])
  }

  const NEW_JOB := Job(0, CreateBaseline, [], [], [])

  const FRESH := System(Store(map[], [], {}, None), [])

  // ----- the invariant -----

  ghost predicate AllTerminal(p: Plan, m: Sessions, n: nat) {
    n <= |p| && forall i :: 0 <= i < n ==> PairTerminal(m, p[i].pair)
  }

  /** A session exists only for a pair of the plan, all of whose predecessors are terminal. */
  ghost predicate InOrder(p: Plan, m: Sessions) {
    && (forall key :: key in m ==> exists i :: 0 <= i < |p| && p[i].pair == key.pair)
    && forall i, key :: 0 <= i < |p| && key in m && p[i].pair == key.pair ==> AllTerminal(p, m, i)
  }

  /** The samples of the first `n` pairs, read off the terminal sessions and the charges there were at the time. */
  ghost predicate AreSamples(p: Plan, d: Store, samples: seq<Sample>, readings: seq<nat>, role: Role, n: nat) {
    && AllTerminal(p, d.sessions, n)
    && |samples| == |readings| == n
    && forall i :: 0 <= i < n ==>
         && readings[i] <= |d.charges|
         && samples[i] == SampleOf(p, d.sessions, d.charges[..readings[i]], i, role)
  }

  ghost predicate ReadAt(p: Plan, d: Store, r: Report, readings: seq<nat>) {
    AreSamples(p, d, r.baseline, readings, Baseline, |p|) && AreSamples(p, d, r.candidate, readings, Candidate, |p|)
  }

  ghost predicate ReportOk(p: Plan, d: Store, r: Report) {
    exists readings :: ReadAt(p, d, r, readings)
  }

  ghost predicate JobOk(p: Plan, d: Store, j: Job) {
    && AreSamples(p, d, j.baseline, j.readings, Baseline, j.position)
    && AreSamples(p, d, j.candidate, j.readings, Candidate, j.position)
    && (j.phase.Publish? ==> j.position == |p|)
  }

  ghost predicate ResultOk(p: Plan, d: Store) {
    d.result.Some? ==> ReportOk(p, d, d.result.value)
  }

  ghost predicate JobsOk(p: Plan, d: Store, jobs: seq<Job>) {
    forall k :: 0 <= k < |jobs| ==> JobOk(p, d, jobs[k])
  }

  predicate NonNegative(charges: seq<Charge>) {
    forall i :: 0 <= i < |charges| ==> charges[i].cost >= 0.0
  }

  ghost predicate Inv(p: Plan, sys: System) {
    && InOrder(p, sys.store.sessions)
    && NonNegative(sys.store.charges)
    && ResultOk(p, sys.store)
    && JobsOk(p, sys.store, sys.jobs)
  }

  /** Sessions are only added, and what is terminal stays as it is. */
  ghost predicate Extends(m: Sessions, m': Sessions) {
    forall key :: key in m ==> key in m' && (m[key].Some? ==> m'[key] == m[key])
  }

  /** Both tables of rows only grow. */
  ghost predicate Grows(d: Store, d': Store) {
    Extends(d.sessions, d'.sessions) && d.charges <= d'.charges
  }

  lemma TerminalExtends(p: Plan, m: Sessions, m': Sessions, n: nat)
    requires Extends(m, m') && AllTerminal(p, m, n)
    ensures AllTerminal(p, m', n)
  {
    forall i | 0 <= i < n
      ensures PairTerminal(m', p[i].pair)
    {
      assert PairTerminal(m, p[i].pair);
    }
  }

  lemma SamplesExtend(p: Plan, d: Store, d': Store, samples: seq<Sample>, readings: seq<nat>, role: Role, n: nat)
    requires Grows(d, d') && AreSamples(p, d, samples, readings, role, n)
    ensures AreSamples(p, d', samples, readings, role, n)
  {
    TerminalExtends(p, d.sessions, d'.sessions, n);
    forall i | 0 <= i < n
      ensures samples[i] == SampleOf(p, d'.sessions, d'.charges[..readings[i]], i, role)
    {
      assert PairTerminal(d.sessions, p[i].pair);
      assert samples[i] == SampleOf(p, d.sessions, d.charges[..readings[i]], i, role);
      assert d'.charges[..readings[i]] == d.charges[..readings[i]];
    }
  }

  lemma ReportExtends(p: Plan, d: Store, d': Store, r: Report)
    requires Grows(d, d') && ReportOk(p, d, r)
    ensures ReportOk(p, d', r)
  {
    var readings :| ReadAt(p, d, r, readings);
    SamplesExtend(p, d, d', r.baseline, readings, Baseline, |p|);
    SamplesExtend(p, d, d', r.candidate, readings, Candidate, |p|);
    assert ReadAt(p, d', r, readings);
  }

  lemma JobExtends(p: Plan, d: Store, d': Store, j: Job)
    requires Grows(d, d') && JobOk(p, d, j)
    ensures JobOk(p, d', j)
  {
    SamplesExtend(p, d, d', j.baseline, j.readings, Baseline, j.position);
    SamplesExtend(p, d, d', j.candidate, j.readings, Candidate, j.position);
  }

  lemma StoreGrows(p: Plan, sys: System, d': Store)
    requires Inv(p, sys) && Grows(sys.store, d') && d'.result == sys.store.result
    requires InOrder(p, d'.sessions) && NonNegative(d'.charges)
    ensures Inv(p, sys.(store := d'))
  {
    if sys.store.result.Some? {
      ReportExtends(p, sys.store, d', sys.store.result.value);
    }
    forall k | 0 <= k < |sys.jobs|
      ensures JobOk(p, d', sys.jobs[k])
    {
      assert JobOk(p, sys.store, sys.jobs[k]);
      JobExtends(p, sys.store, d', sys.jobs[k]);
    }
  }

  lemma CreateInOrder(p: Plan, m: Sessions, n: nat, role: Role)
    requires ValidPlan(p) && InOrder(p, m) && n < |p| && AllTerminal(p, m, n)
    ensures var m' := CreateSession(m, Key(p[n].pair, role)); Extends(m, m') && InOrder(p, m')
  {
    var m' := CreateSession(m, Key(p[n].pair, role));
    forall i, key | 0 <= i < |p| && key in m' && p[i].pair == key.pair
      ensures AllTerminal(p, m', i)
    {
      assert i < n || i == n || n < i;
      assert AllTerminal(p, m, i);
      TerminalExtends(p, m, m', i);
    }
  }

  lemma EndInOrder(p: Plan, m: Sessions, key: Key, outcome: Outcome)
    requires InOrder(p, m)
    ensures var m' := EndTx(m, key, outcome); Extends(m, m') && InOrder(p, m')
  {
    var m' := EndTx(m, key, outcome);
    forall i, k | 0 <= i < |p| && k in m' && p[i].pair == k.pair
      ensures AllTerminal(p, m', i)
    {
      TerminalExtends(p, m, m', i);
    }
  }

  /** Samples of the whole plan always meet the comparison's demands. */
  lemma ReportComparable(p: Plan, d: Store, r: Report)
    requires ValidPlan(p) && ReportOk(p, d, r)
    ensures Comparable(r)
  {
    var readings :| ReadAt(p, d, r, readings);
    forall i | 0 <= i < |p|
      ensures r.baseline[i].pair == p[i].pair == r.candidate[i].pair
      ensures r.baseline[i].case_ == p[i].case_ == r.candidate[i].case_
    {
      assert PairTerminal(d.sessions, p[i].pair);
      assert r.baseline[i] == SampleOf(p, d.sessions, d.charges[..readings[i]], i, Baseline);
      assert r.candidate[i] == SampleOf(p, d.sessions, d.charges[..readings[i]], i, Candidate);
    }
    forall i | 0 <= i < |p|
      ensures Matched(r.baseline[i], r.candidate) && Matched(r.candidate[i], r.baseline)
    {
      assert forall j :: 0 <= j < |p| && p[j].pair == p[i].pair ==> j == i;
      assert r.candidate[i].pair == r.baseline[i].pair;
    }
  }

  /** One more sample, of the rows as they are. */
  lemma CheckKeeps(p: Plan, d: Store, samples: seq<Sample>, readings: seq<nat>, role: Role, n: nat)
    requires n < |p| && AreSamples(p, d, samples, readings, role, n) && PairTerminal(d.sessions, p[n].pair)
    ensures AreSamples(p, d, samples + [SampleOf(p, d.sessions, d.charges, n, role)], readings + [|d.charges|], role, n + 1)
  {
    assert d.charges[..|d.charges|] == d.charges;
  }

  lemma CreateAdvances(p: Plan, sys: System, k: nat)
    requires ValidPlan(p) && Inv(p, sys) && k < |sys.jobs|
    requires sys.jobs[k].position < |p| && (sys.jobs[k].phase.CreateBaseline? || sys.jobs[k].phase.CreateCandidate?)
    ensures StepOk(p, sys, Next(p, sys, Advance(k, true)))
  {
    var d, j := sys.store, sys.jobs[k];
    var (d', j') := AdvanceTx(p, d, j);
    assert JobOk(p, d, j);
    CreateInOrder(p, d.sessions, j.position, if j.phase.CreateBaseline? then Baseline else Candidate);
    StoreGrows(p, sys, d');
    JobExtends(p, d, d', j);
  }

  lemma CheckAdvances(p: Plan, sys: System, k: nat)
    requires ValidPlan(p) && Inv(p, sys) && k < |sys.jobs|
    requires sys.jobs[k].position < |p| && sys.jobs[k].phase.Check?
    ensures StepOk(p, sys, Next(p, sys, Advance(k, true)))
  {
    var d, j := sys.store, sys.jobs[k];
    var (d', j') := AdvanceTx(p, d, j);
    assert JobOk(p, d, j);
    StoreGrows(p, sys, d');
    JobExtends(p, d, d', j);
    if PairTerminal(d.sessions, p[j.position].pair) {
      CheckKeeps(p, d', j.baseline, j.readings, Baseline, j.position);
      CheckKeeps(p, d', j.candidate, j.readings, Candidate, j.position);
    }
  }

  lemma PublishAdvances(p: Plan, sys: System, k: nat)
    requires ValidPlan(p) && Inv(p, sys) && k < |sys.jobs| && sys.jobs[k].phase.Publish?
    ensures StepOk(p, sys, Next(p, sys, Advance(k, true)))
  {
    var d, j := sys.store, sys.jobs[k];
    assert JobOk(p, d, j);
    var r := Report(j.baseline, j.candidate);
    assert ReadAt(p, d, r, j.readings);
    var d' := PublishTx(d, r);
    ReportExtends(p, d, d', r);
    if d.result.Some? {
      ReportExtends(p, d, d', d.result.value);
    }
    forall i | 0 <= i < |sys.jobs|
      ensures JobOk(p, d', sys.jobs[i])
    {
      assert JobOk(p, d, sys.jobs[i]);
      JobExtends(p, d, d', sys.jobs[i]);
    }
  }

  /** What every event keeps. */
  ghost predicate StepOk(p: Plan, sys: System, r: System) {
    && Inv(p, r)
    && (sys.store.result.Some? ==> r.store.result == sys.store.result)
    && Grows(sys.store, r.store)
  }

  lemma AdvanceKeeps(p: Plan, sys: System, k: nat)
    requires ValidPlan(p) && Inv(p, sys) && k < |sys.jobs|
    ensures StepOk(p, sys, Next(p, sys, Advance(k, true)))
  {
    var j := sys.jobs[k];
    if j.phase.Publish? {
      PublishAdvances(p, sys, k);
    } else if j.position < |p| && j.phase.Check? {
      CheckAdvances(p, sys, k);
    } else if j.position < |p| && !j.phase.Ended? {
      CreateAdvances(p, sys, k);
    } else {
      assert JobOk(p, sys.store, j);
    }
  }

  lemma EndKeeps(p: Plan, sys: System, key: Key, outcome: Outcome)
    requires Inv(p, sys)
    ensures StepOk(p, sys, Next(p, sys, EndSession(key, outcome)))
  {
    EndInOrder(p, sys.store.sessions, key, outcome);
    StoreGrows(p, sys, Next(p, sys, EndSession(key, outcome)).store);
  }

  lemma UsageKeeps(p: Plan, sys: System, key: Key, cost: real)
    requires Inv(p, sys)
    ensures StepOk(p, sys, Next(p, sys, Usage(key, cost)))
  {
    StoreGrows(p, sys, Next(p, sys, Usage(key, cost)).store);
  }

  lemma FailKeeps(p: Plan, sys: System, k: nat)
    requires Inv(p, sys)
    ensures StepOk(p, sys, Next(p, sys, Advance(k, false)))
  {
    if k < |sys.jobs| {
      assert JobOk(p, sys.store, sys.jobs[k]);
    }
  }

  lemma NextKeeps(p: Plan, sys: System, e: Event)
    requires ValidPlan(p) && Inv(p, sys)
    ensures StepOk(p, sys, Next(p, sys, e))
  {
    match e
    case StartJob =>
    case Advance(k, works) =>
      if works && k < |sys.jobs| {
        AdvanceKeeps(p, sys, k);
      } else {
        FailKeeps(p, sys, k);
      }
    case EndSession(key, outcome) => EndKeeps(p, sys, key, outcome);
    case Usage(key, cost) => UsageKeeps(p, sys, key, cost);
  }

  // ----- main results -----

  lemma {:induction false} InvRun(p: Plan, sys: System, events: seq<Event>)
    requires ValidPlan(p) && Inv(p, sys)
    ensures Inv(p, Run(p, sys, events))
    ensures sys.store.result.Some? ==> Run(p, sys, events).store.result == sys.store.result
    decreases |events|
  {
    if events != [] {
      NextKeeps(p, sys, events[0]);
      InvRun(p, Next(p, sys, events[0]), events[1..]);
    }
  }

  /** Some charge of the campaign lies between the two readings. */
  predicate ChargedBetween(charges: seq<Charge>, early: nat, late: nat, key: Key)
    requires late <= |charges|
  {
    exists i :: early <= i < late && charges[i].key == key && charges[i].cost > 0.0
  }

  /** A later reading is never lower, and it is higher exactly when the campaign was charged in between. */
  lemma {:induction false} CostBetween(charges: seq<Charge>, early: nat, late: nat, key: Key)
    requires NonNegative(charges) && early <= late <= |charges|
    ensures CostOf(charges[..early], key) <= CostOf(charges[..late], key)
    ensures CostOf(charges[..early], key) == CostOf(charges[..late], key) <==> !ChargedBetween(charges, early, late, key)
    decreases late
  {
    if early < late {
      assert charges[..late][..late - 1] == charges[..late - 1];
      CostBetween(charges, early, late - 1, key);
    }
  }

  /** The outcome of a sample is that of its session; its cost is at most what the campaign has been charged by now. */
  ghost predicate SampleHolds(d: Store, x: Sample, role: Role) {
    && IsTerminal(d.sessions, Key(x.pair, role))
    && x.outcome == d.sessions[Key(x.pair, role)].value
    && x.cost <= CostOf(d.charges, Key(x.pair, role))
  }

  lemma SamplesHold(p: Plan, d: Store, samples: seq<Sample>, readings: seq<nat>, role: Role, n: nat)
    requires NonNegative(d.charges) && AreSamples(p, d, samples, readings, role, n)
    ensures forall i :: 0 <= i < n ==> SampleHolds(d, samples[i], role)
  {
    assert d.charges[..|d.charges|] == d.charges;
    forall i | 0 <= i < n
      ensures SampleHolds(d, samples[i], role)
    {
      assert PairTerminal(d.sessions, p[i].pair);
      CostBetween(d.charges, readings[i], |d.charges|, Key(p[i].pair, role));
    }
  }

  lemma ReportHolds(p: Plan, d: Store, r: Report)
    requires NonNegative(d.charges) && ReportOk(p, d, r)
    ensures |r.baseline| == |r.candidate| == |p|
    ensures forall i :: 0 <= i < |p| ==> SampleHolds(d, r.baseline[i], Baseline) && SampleHolds(d, r.candidate[i], Candidate)
  {
    var readings :| ReadAt(p, d, r, readings);
    SamplesHold(p, d, r.baseline, readings, Baseline, |p|);
    SamplesHold(p, d, r.candidate, readings, Candidate, |p|);
  }

  /**
   * However often jobs are started, interleaved or stopped: a pair's sessions are created only after
   * all earlier pairs are terminal; a result, once recorded, never changes; and it holds one baseline and one
   * candidate sample for each pair, with the outcome of that pair's session and no more than its cost by now.
   */
  lemma EvaluationRun(s: Suite, events: seq<Event>, more: seq<Event>)
    requires ValidSuite(s)
    ensures var p := Pairs(s.cases, s.seeds);
            var sys := Run(p, FRESH, events);
            && ValidPlan(p)
            && InOrder(p, sys.store.sessions)
            && (sys.store.result.Some? ==>
                  var r := sys.store.result.value;
                  && ReportOk(p, sys.store, r)
                  && Comparable(r)
                  && |r.baseline| == |r.candidate| == |p|
                  && (forall i :: 0 <= i < |p| ==> SampleHolds(sys.store, r.baseline[i], Baseline)
                                                   && SampleHolds(sys.store, r.candidate[i], Candidate))
                  && Run(p, sys, more).store.result == sys.store.result)
  {
    var p := Pairs(s.cases, s.seeds);
    PairsValid(s);
    InvRun(p, FRESH, events);
    var sys := Run(p, FRESH, events);
    if sys.store.result.Some? {
      ReportComparable(p, sys.store, sys.store.result.value);
      ReportHolds(p, sys.store, sys.store.result.value);
      InvRun(p, sys, more);
    }
  }

  predicate SameButCost(a: Sample, b: Sample) {
    a.pair == b.pair && a.case_ == b.case_ && a.outcome == b.outcome
  }

  /** Two samples of one session agree on all but the cost, and on that unless the campaign was charged between the readings. */
  predicate AgreeUpTo(charges: seq<Charge>, a: Sample, b: Sample, readA: nat, readB: nat, role: Role)
    requires readA <= |charges| && readB <= |charges|
  {
    && SameButCost(a, b)
    && (a.cost == b.cost <==> !ChargedBetween(charges, if readA < readB then readA else readB,
                                              if readA < readB then readB else readA, Key(a.pair, role)))
  }

  /**
   * Jobs that reach publication carry samples that agree on pair, case and outcome, and on a session's cost exactly
   * when nothing was charged to it between their readings. Each passes the comparison, so the first to publish is kept.
   */
  lemma PublishersAgree(p: Plan, sys: System, k: nat, l: nat)
    requires ValidPlan(p) && Inv(p, sys) && k < |sys.jobs| && l < |sys.jobs|
    requires sys.jobs[k].phase.Publish? && sys.jobs[l].phase.Publish?
    ensures var a, b := sys.jobs[k], sys.jobs[l];
            && |a.readings| == |b.readings| == |p|
            && |a.baseline| == |b.baseline| == |a.candidate| == |b.candidate| == |p|
            && forall i :: 0 <= i < |p| ==>
                 && a.readings[i] <= |sys.store.charges| && b.readings[i] <= |sys.store.charges|
                 && AgreeUpTo(sys.store.charges, a.baseline[i], b.baseline[i], a.readings[i], b.readings[i], Baseline)
                 && AgreeUpTo(sys.store.charges, a.candidate[i], b.candidate[i], a.readings[i], b.readings[i], Candidate)
    ensures Next(p, sys, Advance(k, true)).store.result
            == if sys.store.result.Some? then sys.store.result
               else Some(Report(sys.jobs[k].baseline, sys.jobs[k].candidate))
  {
    var d, a, b := sys.store, sys.jobs[k], sys.jobs[l];
    assert JobOk(p, d, a) && JobOk(p, d, b);
    SamplesAgree(p, d, a.baseline, b.baseline, a.readings, b.readings, Baseline);
    SamplesAgree(p, d, a.candidate, b.candidate, a.readings, b.readings, Candidate);
    assert ReadAt(p, d, Report(a.baseline, a.candidate), a.readings);
    ReportComparable(p, d, Report(a.baseline, a.candidate));
  }

  lemma SamplesAgree(p: Plan, d: Store, a: seq<Sample>, b: seq<Sample>, readsA: seq<nat>, readsB: seq<nat>, role: Role)
    requires NonNegative(d.charges)
    requires AreSamples(p, d, a, readsA, role, |p|) && AreSamples(p, d, b, readsB, role, |p|)
    ensures forall i :: 0 <= i < |p| ==> AgreeUpTo(d.charges, a[i], b[i], readsA[i], readsB[i], role)
  {
    forall i | 0 <= i < |p|
      ensures AgreeUpTo(d.charges, a[i], b[i], readsA[i], readsB[i], role)
    {
      assert PairTerminal(d.sessions, p[i].pair);
      var first := if readsA[i] < readsB[i] then readsA[i] else readsB[i];
      var second := if readsA[i] < readsB[i] then readsB[i] else readsA[i];
      CostBetween(d.charges, first, second, Key(p[i].pair, role));
    }
  }

  // ----- what publication and failure come to -----

  /** Which pair, of which case, the samples are of. */
  function Measured(samples: seq<Sample>): set<(PairId, Case)> {
    set i | 0 <= i < |samples| :: (samples[i].pair, samples[i].case_)
  }

  predicate NoPairTwice(samples: seq<Sample>) {
    forall i, j :: 0 <= i < |samples| && 0 <= j < |samples| && samples[i].pair == samples[j].pair ==> i == j
  }

  /** A report is publishable exactly when both sides measured the same pairs of the same cases, each once, and some. */
  lemma ComparableMeans(r: Report)
    ensures Comparable(r) <==>
              && r.baseline != []
              && NoPairTwice(r.baseline) && NoPairTwice(r.candidate)
              && Measured(r.baseline) == Measured(r.candidate)
  {
    assert Unique(r.baseline) <==> NoPairTwice(r.baseline);
    assert Unique(r.candidate) <==> NoPairTwice(r.candidate);
    if Unique(r.baseline) && Unique(r.candidate) {
      if forall i :: 0 <= i < |r.baseline| ==> Matched(r.baseline[i], r.candidate) {
        MatchedAreMeasured(r.baseline, r.candidate);
      }
      if forall i :: 0 <= i < |r.candidate| ==> Matched(r.candidate[i], r.baseline) {
        MatchedAreMeasured(r.candidate, r.baseline);
      }
      if r.baseline != [] && Measured(r.baseline) == Measured(r.candidate) {
        MeasuredAreMatched(r.baseline, r.candidate);
        MeasuredAreMatched(r.candidate, r.baseline);
        assert (r.baseline[0].pair, r.baseline[0].case_) in Measured(r.candidate);
      }
    }
  }

  lemma MatchedAreMeasured(a: seq<Sample>, b: seq<Sample>)
    requires forall i :: 0 <= i < |a| ==> Matched(a[i], b)
    ensures Measured(a) <= Measured(b)
  {
    forall i | 0 <= i < |a|
      ensures (a[i].pair, a[i].case_) in Measured(b)
    {
      assert Matched(a[i], b);
      var j :| 0 <= j < |b| && b[j].pair == a[i].pair;
      assert b[j].case_ == a[i].case_;
    }
  }

  lemma MeasuredAreMatched(a: seq<Sample>, b: seq<Sample>)
    requires Measured(a) <= Measured(b) && Unique(b)
    ensures forall i :: 0 <= i < |a| ==> Matched(a[i], b)
  {
    forall i | 0 <= i < |a|
      ensures Matched(a[i], b)
    {
      assert (a[i].pair, a[i].case_) in Measured(a);
      assert (a[i].pair, a[i].case_) in Measured(b);
    }
  }

  /** A job that has ended, by failing or in any other way, stays as it is. */
  lemma {:induction false} EndedJobStays(p: Plan, sys: System, events: seq<Event>, k: nat)
    requires k < |sys.jobs| && sys.jobs[k].phase == Ended
    ensures var r := Run(p, sys, events); k < |r.jobs| && r.jobs[k] == sys.jobs[k]
    decreases |events|
  {
    if events != [] {
      EndedJobStays(p, Next(p, sys, events[0]), events[1..], k);
    }
  }

  /** A step that fails changes no row and ends its job for good. */
  lemma FailedJobStays(p: Plan, sys: System, events: seq<Event>, k: nat)
    requires k < |sys.jobs|
    ensures var failed := Next(p, sys, Advance(k, false));
            && failed.store == sys.store
            && k < |Run(p, failed, events).jobs| && Run(p, failed, events).jobs[k].phase == Ended
  {
    EndedJobStays(p, Next(p, sys, Advance(k, false)), events, k);
  }

  // ----- one job without interruption -----

  function Steps(k: nat, n: nat): seq<Event> {
    seq(n, i => Advance(k, true))
  }

  lemma StepLess(p: Plan, d: Store, j: Job)
    requires !j.phase.Ended?
    ensures Remaining(p, AdvanceTx(p, d, j).1) < Remaining(p, j)
  {
  }

  /** A job on its own is a run in which only that job takes steps, until it has ended. */
  lemma {:induction false} AloneIsARun(p: Plan, sys: System, k: nat) returns (n: nat)
    requires k < |sys.jobs|
    ensures var r := Run(p, sys, Steps(k, n));
            && r.store == Alone(p, sys.store, sys.jobs[k])
            && k < |r.jobs| && r.jobs[k].phase == Ended
            && |r.jobs| == |sys.jobs| && forall i :: 0 <= i < |r.jobs| && i != k ==> r.jobs[i] == sys.jobs[i]
    decreases Remaining(p, sys.jobs[k])
  {
    if sys.jobs[k].phase.Ended? {
      n := 0;
      assert Steps(k, 0) == [];
    } else {
      var next := Next(p, sys, Advance(k, true));
      StepLess(p, sys.store, sys.jobs[k]);
      n := AloneIsARun(p, next, k);
      assert Steps(k, n + 1)[0] == Advance(k, true) && Steps(k, n + 1)[1..] == Steps(k, n);
      n := n + 1;
    }
  }
}
