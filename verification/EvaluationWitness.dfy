/** A run in which a session is charged after it ended, between the readings of two evaluation jobs. */
module EvaluationWitness {
  import opened Prelude
  import opened Evaluations

  lemma RunThree(p: Plan, sys: System, a: Event, b: Event, c: Event)
    ensures Run(p, sys, [a, b, c]) == Next(p, Next(p, Next(p, sys, a), b), c)
  {
    var t := Next(p, sys, a);
    var u := Next(p, t, b);
    assert [a, b, c][1..] == [b, c] && [b, c][1..] == [c] && [c][1..] == [];
    assert Run(p, t, [b, c]) == Run(p, u, [c]);
    assert Run(p, u, [c]) == Next(p, u, c);
  }

  lemma {:induction false} RunSplits(p: Plan, sys: System, events: seq<Event>, more: seq<Event>)
    ensures Run(p, sys, events + more) == Run(p, Run(p, sys, events), more)
    decreases |events|
  {
    if events == [] {
      assert events + more == more;
    } else {
      assert (events + more)[1..] == events[1..] + more;
      RunSplits(p, Next(p, sys, events[0]), events[1..], more);
    }
  }

  function Ended(pair: PairId, o: Outcome): Sessions {
    map[Key(pair, Baseline) := Some(o), Key(pair, Candidate) := Some(o)]
  }

  /** A job that has sampled the only pair, after `reading` charges of `cost` altogether to its baseline. */
  function Sampled(q: Planned, o: Outcome, cost: real, reading: nat, phase: Phase): Job {
    Job(1, phase, [Sample(q.pair, q.case_, o, cost)], [Sample(q.pair, q.case_, o, 0.0)], [reading])
  }

  function Creating(): seq<Event> {
    [StartJob, Advance(0, true), Advance(0, true)]
  }

  function FirstReading(pair: PairId, o: Outcome): seq<Event> {
    [EndSession(Key(pair, Baseline), o), EndSession(Key(pair, Candidate), o), Advance(0, true)]
  }

  function Charging(pair: PairId, cost: real): seq<Event> {
    [Usage(Key(pair, Baseline), cost), StartJob, Advance(1, true)]
  }

  function SecondReading(): seq<Event> {
    [Advance(1, true), Advance(1, true), Advance(0, true)]
  }

  /** One job samples the pair, the baseline's campaign is charged, and another job samples the pair. */
  function TwoReadings(pair: PairId, o: Outcome, cost: real): seq<Event> {
    Creating() + (FirstReading(pair, o) + (Charging(pair, cost) + SecondReading()))
  }

  lemma Created(q: Planned)
    ensures Run([q], FRESH, Creating())
            == System(Store(map[Key(q.pair, Baseline) := None, Key(q.pair, Candidate) := None], [], {}, None),
                      [NEW_JOB.(phase := Check)])
  {
    RunThree([q], FRESH, StartJob, Advance(0, true), Advance(0, true));
  }

  /** What a job finds that checks the ended pair. */
  lemma Reading(q: Planned, o: Outcome, d: Store, base: real, cand: real)
    requires d.sessions == Ended(q.pair, o)
    requires CostOf(d.charges, Key(q.pair, Baseline)) == base && CostOf(d.charges, Key(q.pair, Candidate)) == cand
    ensures AdvanceTx([q], d, NEW_JOB.(phase := Check))
            == (d.(cases := d.cases + {q.pair}),
                Job(1, CreateBaseline, [Sample(q.pair, q.case_, o, base)], [Sample(q.pair, q.case_, o, cand)], [|d.charges|]))
  {
    var m := d.sessions;
    assert m[Key(q.pair, Baseline)] == Some(o) && m[Key(q.pair, Candidate)] == Some(o);
    assert PairTerminal(m, [q][0].pair);
    assert SampleOf([q], m, d.charges, 0, Baseline) == Sample(q.pair, q.case_, o, base);
    assert SampleOf([q], m, d.charges, 0, Candidate) == Sample(q.pair, q.case_, o, cand);
    var x, y := Sample(q.pair, q.case_, o, base), Sample(q.pair, q.case_, o, cand);
    assert [] + [x] == [x] && [] + [y] == [y] && [] + [|d.charges|] == [|d.charges|];
  }

  lemma FirstRead(q: Planned, o: Outcome, sys: System)
    requires sys == System(Store(map[Key(q.pair, Baseline) := None, Key(q.pair, Candidate) := None], [], {}, None),
                           [NEW_JOB.(phase := Check)])
    ensures Run([q], sys, FirstReading(q.pair, o))
            == System(Store(Ended(q.pair, o), [], {q.pair}, None), [Sampled(q, o, 0.0, 0, CreateBaseline)])
  {
    var base, cand := EndSession(Key(q.pair, Baseline), o), EndSession(Key(q.pair, Candidate), o);
    RunThree([q], sys, base, cand, Advance(0, true));
    var ended := Next([q], Next([q], sys, base), cand);
    assert ended == System(Store(Ended(q.pair, o), [], {}, None), sys.jobs);
    Reading(q, o, ended.store, 0.0, 0.0);
  }

  lemma Charged(q: Planned, o: Outcome, cost: real, sys: System)
    requires cost > 0.0
    requires sys == System(Store(Ended(q.pair, o), [], {q.pair}, None), [Sampled(q, o, 0.0, 0, CreateBaseline)])
    ensures Run([q], sys, Charging(q.pair, cost))
            == System(sys.store.(charges := [Charge(Key(q.pair, Baseline), cost)]),
                      sys.jobs + [NEW_JOB.(phase := CreateCandidate)])
  {
    RunThree([q], sys, Usage(Key(q.pair, Baseline), cost), StartJob, Advance(1, true));
  }

  lemma SecondRead(q: Planned, o: Outcome, cost: real, sys: System)
    requires sys == System(Store(Ended(q.pair, o), [Charge(Key(q.pair, Baseline), cost)], {q.pair}, None),
                           [Sampled(q, o, 0.0, 0, CreateBaseline), NEW_JOB.(phase := CreateCandidate)])
    ensures Run([q], sys, SecondReading())
            == System(sys.store, [Sampled(q, o, 0.0, 0, Publish), Sampled(q, o, cost, 1, CreateBaseline)])
  {
    RunThree([q], sys, Advance(1, true), Advance(1, true), Advance(0, true));
    OneCharge(q, cost);
    var created := sys.(jobs := sys.jobs[1 := NEW_JOB.(phase := Check)]);
    assert Next([q], sys, Advance(1, true)) == created;
    var read := sys.(jobs := sys.jobs[1 := Sampled(q, o, cost, 1, CreateBaseline)]);
    Reading(q, o, sys.store, cost, 0.0);
    assert Next([q], created, Advance(1, true)) == read;
    assert Next([q], read, Advance(0, true)) == read.(jobs := read.jobs[0 := Sampled(q, o, 0.0, 0, Publish)]);
  }

  lemma OneCharge(q: Planned, cost: real)
    ensures var charges := [Charge(Key(q.pair, Baseline), cost)];
            CostOf(charges, Key(q.pair, Baseline)) == cost && CostOf(charges, Key(q.pair, Candidate)) == 0.0
  {
    assert [Charge(Key(q.pair, Baseline), cost)][..0] == [];
  }

  lemma Both(q: Planned, o: Outcome, cost: real)
    requires cost > 0.0
    ensures Run([q], FRESH, TwoReadings(q.pair, o, cost) + [Advance(1, true)])
            == System(Store(Ended(q.pair, o), [Charge(Key(q.pair, Baseline), cost)], {q.pair}, None),
                      [Sampled(q, o, 0.0, 0, Publish), Sampled(q, o, cost, 1, Publish)])
  {
    var p, pair := [q], q.pair;
    RunSplits(p, FRESH, TwoReadings(pair, o, cost), [Advance(1, true)]);
    RunSplits(p, FRESH, Creating(), FirstReading(pair, o) + (Charging(pair, cost) + SecondReading()));
    Created(q);
    var created := Run(p, FRESH, Creating());
    RunSplits(p, created, FirstReading(pair, o), Charging(pair, cost) + SecondReading());
    FirstRead(q, o, created);
    var read := Run(p, created, FirstReading(pair, o));
    RunSplits(p, read, Charging(pair, cost), SecondReading());
    Charged(q, o, cost, read);
    var charged := Run(p, read, Charging(pair, cost));
    SecondRead(q, o, cost, charged);
    LastStep(q, o, cost, Run(p, charged, SecondReading()));
  }

  lemma LastStep(q: Planned, o: Outcome, cost: real, sys: System)
    requires sys.jobs == [Sampled(q, o, 0.0, 0, Publish), Sampled(q, o, cost, 1, CreateBaseline)]
    ensures Run([q], sys, [Advance(1, true)])
            == sys.(jobs := [Sampled(q, o, 0.0, 0, Publish), Sampled(q, o, cost, 1, Publish)])
  {
    var e := Advance(1, true);
    assert [e][1..] == [];
    assert Run([q], Next([q], sys, e), []) == Next([q], sys, e);
    assert sys.jobs[1 := Sampled(q, o, cost, 1, Publish)] == [Sampled(q, o, 0.0, 0, Publish), Sampled(q, o, cost, 1, Publish)];
  }

  /** Whichever of the two jobs publishes first decides whether the baseline cost nothing or `cost`. */
  lemma LateUsageSplitsReports(q: Planned, o: Outcome, cost: real)
    requires cost > 0.0
    ensures var sys := Run([q], FRESH, TwoReadings(q.pair, o, cost) + [Advance(1, true)]);
            var first, second := Sampled(q, o, 0.0, 0, Publish), Sampled(q, o, cost, 1, Publish);
            && sys.store.result.None? && sys.jobs == [first, second]
            && Next([q], sys, Advance(0, true)).store.result == Some(Report(first.baseline, first.candidate))
            && Next([q], sys, Advance(1, true)).store.result == Some(Report(second.baseline, second.candidate))
  {
    var events := TwoReadings(q.pair, o, cost) + [Advance(1, true)];
    Both(q, o, cost);
    InvRun([q], FRESH, events);
    PublishersAgree([q], Run([q], FRESH, events), 0, 1);
    PublishersAgree([q], Run([q], FRESH, events), 1, 0);
  }
}
