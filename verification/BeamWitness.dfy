/**
 A search in which an attempt number and its seed run twice although no two adjacent rounds share one:
 a cancellation request that comes and goes holds back the first two candidates of the first round.
 */
module BeamWitness {
  import opened Prelude
  import opened BranchReplay
  import opened BeamSpec
  import opened BeamTheorems
  import opened BeamAttempts
  import opened BeamSearch

  /** An environment that always answers the same and never ends an episode. */
  function Steady(): Script {
    Script(true, 0, (k: nat) => Reply(0, 0.0, false, false, false))
  }

  predicate Plain(s: Branch) {
    && Expandable(s) && IsOpen(s)
    && |s.observations| == |s.rewards| + 1
    && forall i :: 0 <= i < |s.observations| ==> s.observations[i] == 0
  }

  lemma {:induction false} SteadyReplay(s: Branch, action: nat, share: real, ranking: real, k: nat, reward: real,
                                        rewards: seq<real>, observations: seq<nat>)
    requires Plain(s) && k <= |s.actions|
    requires forall i :: 0 <= i < |observations| ==> observations[i] == 0
    ensures
      var o := Replay(s, action, share, ranking, Steady(), k, reward, rewards, observations);
      && o.Ran? && IsOpen(o.child) && o.child.actions == s.actions + [action] && o.child.depth == s.depth + 1
      && forall i :: 0 <= i < |o.child.observations| ==> o.child.observations[i] == 0
    decreases |s.actions| - k
  {
    if k < |s.actions| {
      SteadyReplay(s, action, share, ranking, k + 1, if Comparable(s) then reward else reward + 0.0,
                   if Comparable(s) then rewards else rewards + [0.0], observations + [0]);
    }
  }

  lemma SteadyExecutes(s: Branch, action: nat, share: real, ranking: real)
    requires Plain(s)
    ensures
      var o := Execute(s, action, share, ranking, Steady());
      o.Ran? && Plain(o.child) && o.child.depth == s.depth + 1
  {
    SteadyReplay(s, action, share, ranking, 0, if Comparable(s) then s.reward else 0.0,
                 if Comparable(s) then s.rewards else [], [0]);
    ExecuteCounts(s, action, share, ranking, Steady());
  }

  /** Whatever candidate is started continues a plain branch by one plain step. */
  ghost predicate Continues(r: Round) {
    forall b: Branch, i :: Plain(b) && 0 <= i < |r.ranked| ==>
      var o := BeamSpec.Outcome(b, r.ranked, r, i);
      o.Ran? && Plain(o.child) && o.child.depth == b.depth + 1
  }

  /** Only the last of the round's candidates is started. */
  predicate OnlyLast(r: Round) {
    && !r.cancelled && r.ranked != []
    && forall i :: 0 <= i < |r.ranked| ==> (r.active(i) <==> i == |r.ranked| - 1)
  }

  lemma {:induction false} NoneBefore(s: Branch, r: Round, n: nat, offset: nat)
    requires OnlyLast(r) && n < |r.ranked|
    ensures Children(s, r.ranked, r, n) == [] && !AnyFailed(s, r.ranked, r, n) && Attempts(r.active, offset, n) == []
  {
    if n > 0 {
      NoneBefore(s, r, n - 1, offset);
    }
  }

  lemma LastRuns(s: Branch, r: Round, offset: nat)
    requires OnlyLast(r) && Continues(r) && Plain(s)
    ensures
      var n := |r.ranked|;
      var xs := Children(s, r.ranked, r, n);
      && |xs| == 1 && Plain(xs[0]) && xs[0].depth == s.depth + 1
      && !AnyFailed(s, r.ranked, r, n) && Attempts(r.active, offset, n) == [offset + n]
  {
    var n := |r.ranked| - 1;
    NoneBefore(s, r, n, offset);
    assert BeamSpec.Outcome(s, r.ranked, r, n).Ran?;
  }

  /** One plain branch waits, at the depth the number of rounds so far has reached. */
  predicate OneWaits(s: Search, depth: nat) {
    |s.frontier| == 1 && Plain(s.frontier[0].state) && s.frontier[0].state.depth == depth
  }

  lemma OpenOne(c: Config, x: Branch, counter: nat)
    requires IsOpen(x)
    ensures Open(c, [x], counter) == [Entry(-Priority(c, x), counter, x)] && Successes([x]) == []
  {
    assert [x][..0] == [];
  }

  lemma OneTaken(c: Config, f: seq<Entry>, x: Expansion, counter: nat, child: Branch)
    requires c.beamWidth >= 1 && |f| == 1 && TakenFrom(c, f, x, counter)
    requires x.children == [child] && IsOpen(child) && !x.failed
    ensures !Settles(x) && |x.frontier| == 1 && x.frontier[0].state == child
  {
    OpenOne(c, child, counter);
    assert x.waiting == [];
    assert x.waiting + x.pushed == x.pushed;
  }

  lemma ExpandRuns(task: Task, c: Config, s: Search, r: Round)
    requires Going(task, s) && |s.attempts| + |r.ranked| <= task.maxEpisodes
    ensures
      var x := Expand(task, c, s, r);
      var b := s.frontier[Least(s.frontier)].state;
      && x.count == |r.ranked|
      && x.children == Children(b, r.ranked, r, |r.ranked|) && x.failed == AnyFailed(b, r.ranked, r, |r.ranked|)
  {
  }

  lemma ExpandsOne(task: Task, c: Config, s: Search, r: Round, depth: nat)
    requires c.beamWidth >= 1 && OneWaits(s, depth) && OnlyLast(r) && Continues(r) && |s.attempts| + |r.ranked| <= task.maxEpisodes
    ensures
      var x := Expand(task, c, s, r);
      && x.count == |r.ranked| && !Settles(x)
      && |x.frontier| == 1 && Plain(x.frontier[0].state) && x.frontier[0].state.depth == depth + 1
      && Attempts(r.active, |s.attempts|, x.count) == [|s.attempts| + x.count]
  {
    var x := Expand(task, c, s, r);
    assert Least(s.frontier) == 0;
    LastRuns(s.frontier[0].state, r, |s.attempts|);
    ExpandRuns(task, c, s, r);
    ExpandTakes(task, c, s, r);
    OneTaken(c, s.frontier, x, s.counter, x.children[0]);
  }

  /** The search goes on from the next round. */
  lemma ExploreGoesOn(task: Task, c: Config, root: Branch, oracle: nat -> Round, s: Search)
    requires Going(task, s) && !oracle(s.tick).cancelled && !Exhausted(task, s, oracle(s.tick))
    requires !Settles(Expand(task, c, s, oracle(s.tick)))
    ensures
      var t := Recorded(c, s, oracle(s.tick), Expand(task, c, s, oracle(s.tick)));
      |t.attempts| <= task.maxEpisodes && Explore(task, c, root, oracle, s) == Explore(task, c, root, oracle, t)
  {
    Progress(task, c, s, oracle(s.tick));
  }

  /** The round at the search's tick starts its last candidate only, of n. */
  ghost predicate Flickers(oracle: nat -> Round, tick: nat, n: nat) {
    OnlyLast(oracle(tick)) && Continues(oracle(tick)) && |oracle(tick).ranked| == n
  }

  lemma NextRound(task: Task, c: Config, root: Branch, oracle: nat -> Round, s: Search, n: nat) returns (t: Search)
    requires c.beamWidth >= 1 && OneWaits(s, s.tick) && s.tick < task.maxSteps
    requires Flickers(oracle, s.tick, n) && |s.attempts| + n <= task.maxEpisodes
    ensures OneWaits(t, t.tick) && t.tick == s.tick + 1 && t.attempts == s.attempts + [|s.attempts| + n]
    ensures |t.attempts| <= task.maxEpisodes
    ensures Explore(task, c, root, oracle, s) == Explore(task, c, root, oracle, t)
  {
    ExpandsOne(task, c, s, oracle(s.tick), s.tick);
    ExploreGoesOn(task, c, root, oracle, s);
    t := Recorded(c, s, oracle(s.tick), Expand(task, c, s, oracle(s.tick)));
  }

  /** The episodes are used up. */
  lemma ExploreStops(task: Task, c: Config, root: Branch, oracle: nat -> Round, s: Search)
    requires |s.attempts| == task.maxEpisodes
    ensures Explore(task, c, root, oracle, s).1 == s
  {
  }

  /** The last attempt, then the last two, then all three: 3, 2 and 3. */
  lemma LastRound(task: Task, c: Config, root: Branch, oracle: nat -> Round, s: Search)
    requires c.beamWidth >= 1 && OneWaits(s, s.tick) && s.tick < task.maxSteps && |s.attempts| == 2
    requires task.maxEpisodes == 3 && Flickers(oracle, s.tick, 1)
    ensures Explore(task, c, root, oracle, s).1.attempts == s.attempts + [3]
  {
    var t := NextRound(task, c, root, oracle, s, 1);
    ExploreStops(task, c, root, oracle, t);
  }

  lemma TwoRounds(task: Task, c: Config, root: Branch, oracle: nat -> Round, s: Search)
    requires c.beamWidth >= 1 && OneWaits(s, s.tick) && s.tick + 1 < task.maxSteps && |s.attempts| == 1
    requires task.maxEpisodes == 3 && Flickers(oracle, s.tick, 1) && Flickers(oracle, s.tick + 1, 1)
    ensures Explore(task, c, root, oracle, s).1.attempts == s.attempts + [2] + [3]
  {
    var t := NextRound(task, c, root, oracle, s, 1);
    LastRound(task, c, root, oracle, t);
  }

  lemma ThreeRounds(task: Task, c: Config, root: Branch, oracle: nat -> Round, s: Search, n: nat)
    requires c.beamWidth >= 1 && OneWaits(s, s.tick) && s.tick + 2 < task.maxSteps && |s.attempts| == 0
    requires task.maxEpisodes == 3 && n <= 3 && Flickers(oracle, s.tick, n)
    requires Flickers(oracle, s.tick + 1, 1) && Flickers(oracle, s.tick + 2, 1)
    ensures Explore(task, c, root, oracle, s).1.attempts == s.attempts + [n] + [2] + [3]
  {
    var t := NextRound(task, c, root, oracle, s, n);
    TwoRounds(task, c, root, oracle, t);
  }

  function Flicker(tick: nat): Round {
    Round(false, if tick == 0 then [Ranked(1, 0.0), Ranked(2, 0.0), Ranked(3, 0.0)] else [Ranked(1, 0.0)],
          (n: nat) => 0.0, (i: nat) => tick > 0 || i == 2, (i: nat) => Steady(), (i: nat) => 0.0)
  }

  lemma FlickerFlickers(tick: nat)
    ensures Flickers(Flicker, tick, if tick == 0 then 3 else 1)
  {
    var r := Flicker(tick);
    forall b: Branch, i | Plain(b) && 0 <= i < |r.ranked|
      ensures
        var o := BeamSpec.Outcome(b, r.ranked, r, i);
        o.Ran? && Plain(o.child) && o.child.depth == b.depth + 1
    {
      SteadyExecutes(b, r.ranked[i].action, r.share(|r.ranked|), r.ranked[i].score);
    }
  }

  lemma FlickerExplores(task: Task, c: Config, root: Branch)
    requires c.beamWidth >= 1 && task.maxEpisodes == 3 && task.maxSteps >= 3
    requires Seeded(root) && Plain(root) && root.depth == 0
    ensures Explore(task, c, root, Flicker, Begin(root)).1.attempts == [3, 2, 3]
  {
    FlickerFlickers(0);
    FlickerFlickers(1);
    FlickerFlickers(2);
    ThreeRounds(task, c, root, Flicker, Begin(root), 3);
  }

  /** The search itself: three attempts numbered 3, 2 and 3. */
  method FlickerRun(task: Task, c: Config, root: Branch) returns (attempts: seq<nat>)
    requires c.beamWidth >= 1 && task.maxEpisodes == 3 && task.maxSteps >= 3
    requires Seeded(root) && Plain(root) && root.depth == 0
    ensures attempts == [3, 2, 3]
  {
    var result;
    ghost var search;
    result, attempts, search := Run(task, c, root, Flicker);
    FlickerExplores(task, c, root);
  }
}
