/**
 The search as it runs: pop the best branch, execute its ranked candidates as isolated attempts,
 keep the best of what they lead to. Each method computes the function of the same step.
 */
module BeamSearch {
  import opened Prelude
  import opened BranchReplay
  import opened BeamSpec
  import opened BeamTheorems
  import opened BeamAttempts

  // ---------------------------------------------------------------- the frontier

  method MinIndex(f: seq<Entry>) returns (m: nat)
    requires f != []
    ensures m == Least(f)
  {
    m := 0;
    assert f[..1][..0] == [];
    for i := 1 to |f|
      invariant m == Least(f[..i])
    {
      assert f[..i + 1][..i] == f[..i];
      if Less(f[i], f[m]) {
        m := i;
      }
    }
    assert f[..|f|] == f;
  }

  method PopMin(f: seq<Entry>) returns (e: Entry, rest: seq<Entry>)
    requires f != []
    ensures e == f[Least(f)] && rest == Without(f, Least(f))
  {
    var m := MinIndex(f);
    e, rest := f[m], f[..m] + f[m + 1..];
  }

  lemma KeepStep(kept: seq<Entry>, f: seq<Entry>, width: nat)
    requires f != [] && width > 0
    ensures kept + Keep(f, width) == kept + [f[Least(f)]] + Keep(Without(f, Least(f)), width - 1)
  {
  }

  method Smallest(f: seq<Entry>, width: nat) returns (kept: seq<Entry>)
    ensures kept == Keep(f, width)
  {
    kept := [];
    var left := f;
    while left != [] && |kept| < width
      invariant |kept| <= width
      invariant Keep(f, width) == kept + Keep(left, width - |kept|)
      decreases |left|
    {
      var e, rest := PopMin(left);
      KeepStep(kept, left, width - |kept|);
      kept, left := kept + [e], rest;
    }
  }

  /** Keeps the `width` best entries: nothing that is dropped is better than anything kept. */
  method Prune(f: seq<Entry>, width: nat) returns (kept: seq<Entry>)
    ensures kept == Keep(f, width)
    ensures |kept| == (if |f| < width then |f| else width) && KeepsBest(f, kept)
  {
    kept := Smallest(f, width);
    KeepIs(f, width);
  }

  // ---------------------------------------------------------------- one round

  method ExecuteRound(s: Branch, ranked: seq<Ranked>, offset: nat, r: Round)
    returns (children: seq<Branch>, attempts: seq<nat>, failed: bool)
    ensures attempts == Attempts(r.active, offset, |ranked|)
    ensures children == Children(s, ranked, r, |ranked|) && failed == AnyFailed(s, ranked, r, |ranked|)
  {
    children, attempts, failed := [], [], false;
    for i := 0 to |ranked|
      invariant attempts == Attempts(r.active, offset, i)
      invariant children == Children(s, ranked, r, i) && failed == AnyFailed(s, ranked, r, i)
    {
      if r.active(i) {
        attempts := attempts + [offset + i + 1];
        var share := r.share(|ranked|);
        var o := ExecuteCandidate(s, ranked[i].action, share, ranked[i].score, r.script(i));
        match o {
          case Failed => failed := true;
          case Dropped =>
          case Ran(child) => children := children + [child.(novelty := r.novelty(i))];
        }
      }
    }
  }

  method PickBest(c: Config, xs: seq<Branch>) returns (s: Branch)
    requires xs != []
    ensures s == Pick(c, xs) && BestOf(c, s, xs)
  {
    s := xs[0];
    assert xs[..1][..0] == [];
    for i := 1 to |xs|
      invariant s == Pick(c, xs[..i])
    {
      assert xs[..i + 1][..i] == xs[..i];
      if Priority(c, xs[i]) > Priority(c, s) {
        s := xs[i];
      }
    }
    assert xs[..|xs|] == xs;
    PickIs(c, xs);
  }

  /** Records a round's children: the running best, the successes, and the open ones on the frontier. */
  method Absorb(c: Config, frontier: seq<Entry>, counter: nat, children: seq<Branch>, best: Option<Branch>)
    returns (f: seq<Entry>, next: nat, b: Option<Branch>, wins: seq<Branch>)
    ensures f == frontier + Open(c, children, counter) && next == counter + |Open(c, children, counter)|
    ensures b == Better(c, best, children) && wins == Successes(children)
  {
    f, next, b, wins := frontier, counter, best, [];
    for i := 0 to |children|
      invariant f == frontier + Open(c, children[..i], counter) && next == counter + |Open(c, children[..i], counter)|
      invariant b == Better(c, best, children[..i]) && wins == Successes(children[..i])
    {
      var child := children[i];
      assert children[..i + 1][..i] == children[..i];
      if b.None? || Priority(c, child) > Priority(c, b.value) {
        b := Some(child);
      }
      if child.success {
        wins := wins + [child];
      } else if !child.terminated {
        f := f + [Entry(-Priority(c, child), next, child)];
        next := next + 1;
      }
    }
    assert children[..|children|] == children;
  }

  // ---------------------------------------------------------------- the search

  /** The frontier after a round: cut back to the beam unless the round settles the search. */
  method Retain(c: Config, grown: seq<Entry>, settled: bool) returns (f: seq<Entry>)
    ensures f == if settled then grown else Cut(grown, c.beamWidth)
  {
    f := grown;
    if !settled && |grown| > c.beamWidth {
      f := Prune(grown, c.beamWidth);
    }
  }

  /** Opens the children of an executed round. */
  method OpenRound(c: Config, s: Search, entry: Entry, waiting: seq<Entry>, count: nat, children: seq<Branch>, failed: bool)
    returns (x: Expansion, counter: nat, best: Option<Branch>)
    ensures x == Opening(c, s, entry, waiting, count, children, failed)
    ensures counter == s.counter + |x.pushed| && best == Better(c, s.best, children)
  {
    var grown, wins;
    grown, counter, best, wins := Absorb(c, waiting, s.counter, children, s.best);
    var frontier := Retain(c, grown, failed || wins != []);
    x := Expansion(s.tick, entry, waiting, count, children, failed, grown[|waiting|..], frontier);
  }

  /** Records an executed round in the variables of the loop. */
  method RecordRound(c: Config, s: Search, r: Round, entry: Entry, waiting: seq<Entry>, count: nat,
                     children: seq<Branch>, started: seq<nat>, failed: bool)
    returns (t: Search, x: Expansion)
    requires started == Attempts(r.active, |s.attempts|, count)
    ensures x == Opening(c, s, entry, waiting, count, children, failed)
    ensures t == Recorded(c, s, r, x)
  {
    var counter, best;
    x, counter, best := OpenRound(c, s, entry, waiting, count, children, failed);
    var peak := if !Settles(x) && |x.frontier| > s.peak then |x.frontier| else s.peak;
    t := Search(x.frontier, counter, s.tick + 1, s.attempts + started, s.nodes + children, best,
                s.cancelled || |started| < count, peak, s.expansions + [x]);
  }

  /** One popped branch's round, from the variables of the loop to their next values. */
  method ExpandBranch(task: Task, c: Config, s: Search, r: Round, entry: Entry, waiting: seq<Entry>)
    returns (t: Search, x: Expansion)
    requires Going(task, s) && entry == s.frontier[Least(s.frontier)] && waiting == Without(s.frontier, Least(s.frontier))
    ensures x == Expand(task, c, s, r) && t == Recorded(c, s, r, x)
  {
    var ranked := Cutoff(r.ranked, task.maxEpisodes - |s.attempts|);
    t, x := ExpandCandidates(c, s, r, entry, waiting, ranked);
  }

  method ExpandCandidates(c: Config, s: Search, r: Round, entry: Entry, waiting: seq<Entry>, ranked: seq<Ranked>)
    returns (t: Search, x: Expansion)
    ensures x == ExpandWith(c, s, r, entry, waiting, ranked) && t == Recorded(c, s, r, x)
  {
    var children, started, failed := ExecuteRound(entry.state, ranked, |s.attempts|, r);
    t, x := RecordRound(c, s, r, entry, waiting, |ranked|, children, started, failed);
  }

  method Run(task: Task, c: Config, root: Branch, oracle: nat -> Round)
    returns (result: Result, attempts: seq<nat>, ghost search: Search)
    requires c.beamWidth >= 1 && Seeded(root)
    ensures (result, search) == Explore(task, c, root, oracle, Begin(root)) && attempts == search.attempts
    ensures SearchOk(task, c, root, result, search)
    ensures HistoryOk(task, c, root, oracle, search)
    ensures OracleOk(task, oracle, result, search)
    ensures TotalsOk(task, oracle, result, search)
    ensures Distinct(attempts) <==> !Clashes(StartedOf(oracle, search.expansions))
    ensures Persistent(oracle) ==> Increasing(attempts)
  {
    result, attempts, search := Loop(task, c, root, oracle);
    RunIs(task, c, root, oracle);
    RunFollows(task, c, root, oracle);
    RunAnswers(task, c, root, oracle);
    RunTotals(task, c, root, oracle);
    RunNumbers(task, c, root, oracle);
  }

  /** The result by the rounds that were executed. */
  predicate SearchOk(task: Task, c: Config, root: Branch, result: Result, search: Search) {
    && result.explored == |search.attempts| <= task.maxEpisodes
    && (result.Finished? ==>
          && result.nodes == Flatten(Rounds(search.expansions)) && |result.nodes| <= result.explored
          && RightWinner(c, root, result.winner, Rounds(search.expansions))
          && 1 <= result.peak <= c.beamWidth)
    && RaisesIff(result, search.expansions)
  }

  /** How each round came from the one before it, and why no round follows the last. */
  ghost predicate HistoryOk(task: Task, c: Config, root: Branch, oracle: nat -> Round, search: Search) {
    && History(task, c, root, oracle, search.expansions)
    && FollowsLast(task, oracle, root, search.expansions, search.frontier, search.tick)
    && Ticked(oracle, search.expansions, search.tick)
    && Stopped(task, oracle, search)
  }

  /** The rounds are full and led to what the oracle answered; a winning round was won by a success among the answers. */
  ghost predicate OracleOk(task: Task, oracle: nat -> Round, result: Result, search: Search) {
    && Answered(oracle, search.expansions) && Filled(task, oracle, search.expansions)
    && (result.Finished? && !QuietRounds(Rounds(search.expansions)) ==>
          search.expansions != [] && WonBy(oracle, search.expansions[|search.expansions| - 1], result.winner))
  }

  /** A finished search was cancelled exactly when the callback stopped it or held a candidate back; its peak is exact. */
  predicate TotalsOk(task: Task, oracle: nat -> Round, result: Result, search: Search) {
    result.Finished? ==>
      && (result.cancelled <==> AnyHeldBack(oracle, search.expansions) || StoppedByCallback(task, oracle, search))
      && PeakOf(result.peak, search.expansions)
  }

  method Loop(task: Task, c: Config, root: Branch, oracle: nat -> Round)
    returns (result: Result, attempts: seq<nat>, ghost search: Search)
    ensures (result, search) == Explore(task, c, root, oracle, Begin(root)) && attempts == search.attempts
  {
    var s := Begin(root);
    while s.frontier != [] && |s.attempts| < task.maxEpisodes
      invariant |s.attempts| <= task.maxEpisodes
      invariant Explore(task, c, root, oracle, Begin(root)) == Explore(task, c, root, oracle, s)
      decreases task.maxEpisodes - |s.attempts|, |s.frontier|
    {
      var r := oracle(s.tick);
      if r.cancelled {
        s := s.(cancelled := true);
        return Ends(root, s), s.attempts, s;
      }
      var entry, waiting := PopMin(s.frontier);
      if entry.state.depth >= task.maxSteps || r.ranked == [] {
        s := s.(frontier := waiting, tick := s.tick + 1);
        continue;
      }
      Progress(task, c, s, r);
      var t, x := ExpandBranch(task, c, s, r, entry, waiting);
      s := t;
      if x.failed {
        return RaisedFailure(|s.attempts|), s.attempts, s;
      }
      var wins := Successes(x.children);
      if wins != [] {
        var winner := PickBest(c, wins);
        return Finished(winner, |s.attempts|, s.cancelled, s.peak, s.nodes), s.attempts, s;
      }
    }
    var winner := if s.best.Some? then s.best.value else root;
    return Finished(winner, |s.attempts|, s.cancelled, s.peak, s.nodes), s.attempts, s;
  }

  lemma RunIs(task: Task, c: Config, root: Branch, oracle: nat -> Round)
    requires c.beamWidth >= 1
    ensures var (result, s) := Explore(task, c, root, oracle, Begin(root)); SearchOk(task, c, root, result, s)
  {
    BeginKeeps(task, c, root);
    ExploreIs(task, c, root, oracle, Begin(root));
    ExploreRaises(task, c, root, oracle, Begin(root));
  }

  lemma RunFollows(task: Task, c: Config, root: Branch, oracle: nat -> Round)
    requires c.beamWidth >= 1 && Seeded(root)
    ensures HistoryOk(task, c, root, oracle, Explore(task, c, root, oracle, Begin(root)).1)
  {
    BeginKeeps(task, c, root);
    ExploreIs(task, c, root, oracle, Begin(root));
    ExploreHistory(task, c, root, oracle, Begin(root));
    ExploreTicks(task, c, root, oracle, Begin(root));
  }

  lemma RunAnswers(task: Task, c: Config, root: Branch, oracle: nat -> Round)
    requires c.beamWidth >= 1
    ensures var (result, s) := Explore(task, c, root, oracle, Begin(root)); OracleOk(task, oracle, result, s)
  {
    var (result, s) := Explore(task, c, root, oracle, Begin(root));
    RunIs(task, c, root, oracle);
    ExploreAnswers(task, c, root, oracle, Begin(root));
    ExploreFills(task, c, root, oracle, Begin(root));
    if result.Finished? && !QuietRounds(Rounds(s.expansions)) {
      WinnerWon(c, root, oracle, result.winner, s.expansions);
    }
  }

  lemma WinnerWon(c: Config, root: Branch, oracle: nat -> Round, winner: Branch, xs: seq<Expansion>)
    requires RightWinner(c, root, winner, Rounds(xs)) && !QuietRounds(Rounds(xs)) && Answered(oracle, xs)
    ensures xs != [] && WonBy(oracle, xs[|xs| - 1], winner)
  {
    assert RoundAnswered(oracle, xs[|xs| - 1]);
    SuccessIsWonBy(oracle, xs[|xs| - 1], winner);
  }

  lemma RunTotals(task: Task, c: Config, root: Branch, oracle: nat -> Round)
    requires c.beamWidth >= 1
    ensures var (result, s) := Explore(task, c, root, oracle, Begin(root)); TotalsOk(task, oracle, result, s)
  {
    BeginKeeps(task, c, root);
    ExploreIs(task, c, root, oracle, Begin(root));
    ExplorePeak(task, c, root, oracle, Begin(root));
    ExploreCancels(task, c, root, oracle, Begin(root));
  }

  lemma RunNumbers(task: Task, c: Config, root: Branch, oracle: nat -> Round)
    ensures
      var s := Explore(task, c, root, oracle, Begin(root)).1;
      && (Distinct(s.attempts) <==> !Clashes(StartedOf(oracle, s.expansions)))
      && (Persistent(oracle) ==> Increasing(s.attempts))
  {
    ExploreFills(task, c, root, oracle, Begin(root));
    ExploreTicks(task, c, root, oracle, Begin(root));
    var s := Explore(task, c, root, oracle, Begin(root)).1;
    DistinctIff(StartedOf(oracle, s.expansions));
    if Persistent(oracle) {
      PersistentIsEnough(oracle, s.expansions, s.tick);
    }
  }

  // ---------------------------------------------------------------- cost and token shares

  /** The candidates of a round together are charged exactly what the model cost. */
  lemma CostSharesAddUp(cost: real, n: nat)
    requires n > 0
    ensures n as real * CostShare(cost)(n) == Max(0.0, cost)
    ensures CostShare(cost)(0) == Max(0.0, cost)
  {
  }

  /** `divmod` splits a round's tokens; the first `remainder` candidates carry one more. */
  function Share(tokens: nat, n: nat, index: nat): nat
    requires n > 0
  {
    tokens / n + (if index < tokens % n then 1 else 0)
  }

  function SharedUpTo(tokens: nat, n: nat, k: nat): nat
    requires n > 0
  {
    if k == 0 then 0 else SharedUpTo(tokens, n, k - 1) + Share(tokens, n, k - 1)
  }

  lemma {:induction false} SharedPrefix(tokens: nat, n: nat, k: nat)
    requires n > 0 && k <= n
    ensures SharedUpTo(tokens, n, k) == k * (tokens / n) + (if k < tokens % n then k else tokens % n)
  {
    if k > 0 {
      SharedPrefix(tokens, n, k - 1);
      assert k * (tokens / n) == (k - 1) * (tokens / n) + tokens / n;
    }
  }

  /** The shares of a round's candidates add up to exactly the tokens the round cost. */
  lemma SharesAddUp(tokens: nat, n: nat)
    requires n > 0
    ensures SharedUpTo(tokens, n, n) == tokens
  {
    SharedPrefix(tokens, n, n);
  }
}
