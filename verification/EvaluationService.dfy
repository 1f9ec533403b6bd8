/** The evaluation job as it runs: nested loops over cases and seeds that stop at the first unfinished pair. */
module EvaluationService {
  import opened Prelude
  import opened Evaluations

  /** Where a case's pairs lie in the plan. */
  lemma {:induction false} PairAt(cases: seq<Case>, seeds: seq<int>, i: nat, j: nat)
    requires i < |cases| && j < |seeds|
    ensures var p, at := Pairs(cases, seeds), |Pairs(cases[..i], seeds)|;
            && at + j < |p|
            && p[at + j] == Planned((i, seeds[j]), cases[i])
            && |Pairs(cases[..i + 1], seeds)| == at + |seeds|
            && |Pairs(cases[..i + 1], seeds)| <= |p|
    decreases |cases|
  {
    var n := |cases| - 1;
    if i == n {
      assert cases[..i + 1] == cases;
    } else {
      assert cases[..n][..i] == cases[..i] && cases[..n][..i + 1] == cases[..i + 1];
      PairAt(cases[..n], seeds, i, j);
    }
  }

  lemma AloneUnfolds(p: Plan, d: Store, j: Job)
    requires !j.phase.Ended?
    ensures Alone(p, d, j) == Alone(p, AdvanceTx(p, d, j).0, AdvanceTx(p, d, j).1)
  {
  }

  class EvaluationRunner {
    const suite: Suite
    var sessions: Sessions
    var charges: seq<Charge>
    var cases: set<PairId>
    var result: Option<Report>

    function Value(): Store
      reads this
    {
      Store(sessions, charges, cases, result)
    }

    constructor (suite: Suite)
      ensures this.suite == suite && Value() == Store(map[], [], {}, None)
    {
      this.suite := suite;
      sessions := map[];
      charges := [];
      cases := {};
      result := None;
    }

    /** Both sessions of a pair, its case record, and its samples once both sessions are terminal. */
    method RunPair(job: Job) returns (after: Job)
      requires job.phase.CreateBaseline? && job.position < |Pairs(suite.cases, suite.seeds)|
      modifies this`sessions, this`cases
      ensures var p := Pairs(suite.cases, suite.seeds);
              && Alone(p, Value(), after) == Alone(p, old(Value()), job)
              && (if PairTerminal(sessions, p[job.position].pair)
                  then after.phase.CreateBaseline? && after.position == job.position + 1
                  else after.phase.Ended?)
    {
      var plan := Pairs(suite.cases, suite.seeds);
      var pair := plan[job.position].pair;
      AloneUnfolds(plan, Value(), job);
      sessions := CreateSession(sessions, Key(pair, Baseline));
      ghost var half := job.(phase := CreateCandidate);
      AloneUnfolds(plan, Value(), half);
      sessions := CreateSession(sessions, Key(pair, Candidate));
      ghost var made := job.(phase := Check);
      AloneUnfolds(plan, Value(), made);
      var baseline, candidate := job.baseline, job.candidate;
      var done := PairTerminal(sessions, pair);
      if done {
        baseline := baseline + [SampleOf(plan, sessions, charges, job.position, Baseline)];
        candidate := candidate + [SampleOf(plan, sessions, charges, job.position, Candidate)];
        after := Job(job.position + 1, CreateBaseline, baseline, candidate, job.readings + [|charges|]);
      } else {
        after := job.(phase := Ended);
      }
      cases := cases + {pair};
    }

    method PublishReport(report: Report)
      modifies this`result
      ensures Value() == PublishTx(old(Value()), report)
    {
      if result.None? && Comparable(report) {
        result := Some(report);
      }
    }

    method RunJob()
      modifies this`sessions, this`cases, this`result
      ensures Value() == if old(result).Some? then old(Value())
                         else Alone(Pairs(suite.cases, suite.seeds), old(Value()), NEW_JOB)
    {
      if result.Some? {
        return;
      }
      ghost var p := Pairs(suite.cases, suite.seeds);
      ghost var whole := Alone(p, Value(), NEW_JOB);
      var job := NEW_JOB;
      var i := 0;
      assert Pairs(suite.cases[..0], suite.seeds) == [];
      while i < |suite.cases|
        invariant 0 <= i <= |suite.cases|
        invariant job.phase.CreateBaseline? && job.position == |Pairs(suite.cases[..i], suite.seeds)|
        invariant Alone(p, Value(), job) == whole && result == old(result)
      {
        var j := 0;
        while j < |suite.seeds|
          invariant 0 <= j <= |suite.seeds|
          invariant job.phase.CreateBaseline? && job.position == |Pairs(suite.cases[..i], suite.seeds)| + j
          invariant Alone(p, Value(), job) == whole && result == old(result)
        {
          PairAt(suite.cases, suite.seeds, i, j);
          job := RunPair(job);
          if job.phase.Ended? {
            return;
          }
          j := j + 1;
        }
        assert suite.cases[..i + 1][..i] == suite.cases[..i];
        i := i + 1;
      }
      assert suite.cases[..i] == suite.cases;
      AloneUnfolds(p, Value(), job);
      AloneUnfolds(p, Value(), job.(phase := Publish));
      PublishReport(Report(job.baseline, job.candidate));
    }
  }
}
