/**
 Best-first beam search as functions: one round, one expansion, the whole search. The environment,
 the model and the cancellation callback are an oracle that answers for each tick of the loop.
 */
module BeamSpec {
  import opened Prelude
  import opened BranchReplay

  /** Nothing in the search depends on how a branch is rated; `Weighted` is how it is. */
  datatype Config = Config(beamWidth: nat, priority: Branch -> real)

  datatype Weights = Weights(reward: real, novelty: real, cost: real, depthPenalty: real, ranking: real,
                             usesReward: bool, usesNovelty: bool)

  datatype Task = Task(maxEpisodes: nat, maxSteps: nat)

  datatype Ranked = Ranked(action: nat, score: real)

  /**
   `active(i)`: the i-th candidate was not cancelled before it started. `share(n)`: what each of n
   candidates is charged of the model's cost; `CostShare` is how it is divided.
   */
  datatype Round = Round(cancelled: bool, ranked: seq<Ranked>, share: nat -> real,
                         active: nat -> bool, script: nat -> Script, novelty: nat -> real)

  datatype Entry = Entry(key: real, counter: nat, state: Branch)

  datatype Result =
    | Finished(winner: Branch, explored: nat, cancelled: bool, peak: nat, nodes: seq<Branch>)
    | RaisedFailure(explored: nat)

  /**
   One expansion: the entry popped at a tick, what was left waiting, how many candidates the round
   had, what they led to, the entries pushed for them and the frontier that was kept.
   */
  datatype Expansion = Expansion(tick: nat, entry: Entry, waiting: seq<Entry>, count: nat, children: seq<Branch>,
                                 failed: bool, pushed: seq<Entry>, frontier: seq<Entry>)

  /** The variables of the loop; `expansions` is the history of the rounds that were executed. */
  datatype Search = Search(frontier: seq<Entry>, counter: nat, tick: nat, attempts: seq<nat>, nodes: seq<Branch>,
                           best: Option<Branch>, cancelled: bool, peak: nat, expansions: seq<Expansion>)

  function Weighted(w: Weights): Branch -> real {
    (s: Branch) =>
      var reward := if w.usesReward then s.reward else 0.0;
      var novelty := if w.usesNovelty then s.novelty else 0.0;
      w.reward * reward + w.novelty * novelty - w.cost * s.cost - w.depthPenalty * (s.depth as real)
      + w.ranking * s.ranking
  }

  function CostShare(cost: real): nat -> real {
    (n: nat) => Max(0.0, cost) / (if n == 0 then 1.0 else n as real)
  }

  function Priority(c: Config, s: Branch): real {
    c.priority(s)
  }

  // ---------------------------------------------------------------- the frontier

  predicate Less(a: Entry, b: Entry) {
    a.key < b.key || (a.key == b.key && a.counter < b.counter)
  }

  function Least(f: seq<Entry>): (m: nat)
    requires f != []
    ensures m < |f|
  {
    var n := |f| - 1;
    if n == 0 then 0
    else
      var m := Least(f[..n]);
      if Less(f[n], f[m]) then n else m
  }

  function Without(f: seq<Entry>, m: nat): seq<Entry>
    requires m < |f|
  {
    f[..m] + f[m + 1..]
  }

  /** The `width` best entries, best first. */
  function Keep(f: seq<Entry>, width: nat): (r: seq<Entry>)
    ensures |r| == if |f| < width then |f| else width
  {
    if f == [] || width == 0 then [] else [f[Least(f)]] + Keep(Without(f, Least(f)), width - 1)
  }

  function Cut(f: seq<Entry>, width: nat): (r: seq<Entry>)
    ensures |r| <= width && |r| <= |f|
  {
    if |f| > width then Keep(f, width) else f
  }

  // ---------------------------------------------------------------- one round

  /** The attempt numbers of the candidates that were started, in order. */
  function Attempts(active: nat -> bool, offset: nat, n: nat): seq<nat> {
    if n == 0 then []
    else Attempts(active, offset, n - 1) + (if active(n - 1) then [offset + n] else [])
  }

  function Outcome(s: Branch, ranked: seq<Ranked>, r: Round, i: nat): BranchReplay.Outcome
    requires i < |ranked|
  {
    Execute(s, ranked[i].action, r.share(|ranked|), ranked[i].score, r.script(i))
  }

  /** The children of the first n candidates, in the order of the ranking. */
  function Children(s: Branch, ranked: seq<Ranked>, r: Round, n: nat): seq<Branch>
    requires n <= |ranked|
  {
    if n == 0 then []
    else
      var o := Outcome(s, ranked, r, n - 1);
      Children(s, ranked, r, n - 1) + (if r.active(n - 1) && o.Ran? then [o.child.(novelty := r.novelty(n - 1))] else [])
  }

  predicate AnyFailed(s: Branch, ranked: seq<Ranked>, r: Round, n: nat)
    requires n <= |ranked|
  {
    n > 0 && (AnyFailed(s, ranked, r, n - 1) || (r.active(n - 1) && Outcome(s, ranked, r, n - 1).Failed?))
  }

  predicate IsOpen(s: Branch) {
    !s.success && !s.terminated
  }

  /** The entries pushed for the children that are neither successful nor terminated. */
  function Open(c: Config, xs: seq<Branch>, counter: nat): (r: seq<Entry>)
    ensures |r| <= |xs|
  {
    if xs == [] then []
    else
      var n := |xs| - 1;
      var before := Open(c, xs[..n], counter);
      before + (if IsOpen(xs[n]) then [Entry(-Priority(c, xs[n]), counter + |before|, xs[n])] else [])
  }

  function Successes(xs: seq<Branch>): seq<Branch> {
    if xs == [] then []
    else Successes(xs[..|xs| - 1]) + (if xs[|xs| - 1].success then [xs[|xs| - 1]] else [])
  }

  /** The first branch of greatest priority. */
  function Pick(c: Config, xs: seq<Branch>): Branch
    requires xs != []
  {
    var n := |xs| - 1;
    if n == 0 then xs[0]
    else
      var b := Pick(c, xs[..n]);
      if Priority(c, xs[n]) > Priority(c, b) then xs[n] else b
  }

  function Better(c: Config, best: Option<Branch>, xs: seq<Branch>): Option<Branch> {
    if xs == [] then best
    else
      var n := |xs| - 1;
      var b := Better(c, best, xs[..n]);
      if b.None? || Priority(c, xs[n]) > Priority(c, b.value) then Some(xs[n]) else b
  }

  /** A round never starts more candidates than the episodes that remain. */
  function Cutoff(ranked: seq<Ranked>, remaining: nat): (r: seq<Ranked>)
    ensures |r| <= remaining && (ranked != [] && remaining > 0 ==> r != []) && |r| <= |ranked|
  {
    if |ranked| <= remaining then ranked else ranked[..remaining]
  }

  // ---------------------------------------------------------------- the search

  function Begin(root: Branch): Search {
    Search([Entry(0.0, 0, root)], 1, 0, [], [], None, false, 1, [])
  }

  predicate Going(task: Task, s: Search) {
    s.frontier != [] && |s.attempts| < task.maxEpisodes
  }

  /** The popped branch has nothing to expand. */
  predicate Exhausted(task: Task, s: Search, r: Round)
    requires s.frontier != []
  {
    s.frontier[Least(s.frontier)].state.depth >= task.maxSteps || r.ranked == []
  }

  function Drop(s: Search): Search
    requires s.frontier != []
  {
    s.(frontier := Without(s.frontier, Least(s.frontier)), tick := s.tick + 1)
  }

  /** A round with these children: its open ones pushed, and the frontier cut back unless the search is settled. */
  function Opening(c: Config, s: Search, entry: Entry, waiting: seq<Entry>, count: nat, children: seq<Branch>,
                   failed: bool): Expansion {
    var pushed := Open(c, children, s.counter);
    var settled := failed || Successes(children) != [];
    Expansion(s.tick, entry, waiting, count, children, failed, pushed,
              if settled then waiting + pushed else Cut(waiting + pushed, c.beamWidth))
  }

  /** A popped branch's round with these candidates. */
  function ExpandWith(c: Config, s: Search, r: Round, entry: Entry, waiting: seq<Entry>, ranked: seq<Ranked>): Expansion {
    Opening(c, s, entry, waiting, |ranked|, Children(entry.state, ranked, r, |ranked|),
            AnyFailed(entry.state, ranked, r, |ranked|))
  }

  /** What a round comes to, before any of it is recorded. */
  function Expand(task: Task, c: Config, s: Search, r: Round): Expansion
    requires Going(task, s)
  {
    var m := Least(s.frontier);
    ExpandWith(c, s, r, s.frontier[m], Without(s.frontier, m), Cutoff(r.ranked, task.maxEpisodes - |s.attempts|))
  }

  predicate Settles(x: Expansion) {
    x.failed || Successes(x.children) != []
  }

  function Recorded(c: Config, s: Search, r: Round, x: Expansion): Search {
    var started := Attempts(r.active, |s.attempts|, x.count);
    Search(x.frontier, s.counter + |x.pushed|, s.tick + 1, s.attempts + started, s.nodes + x.children,
           Better(c, s.best, x.children), s.cancelled || |started| < x.count,
           if !Settles(x) && |x.frontier| > s.peak then |x.frontier| else s.peak,
           s.expansions + [x])
  }

  function Ends(root: Branch, s: Search): Result {
    Finished(if s.best.Some? then s.best.value else root, |s.attempts|, s.cancelled, s.peak, s.nodes)
  }

  /** A round with a failure raises it; a round with a success decides the search. */
  function Decides(c: Config, s: Search, x: Expansion): Result
    requires Settles(x)
  {
    if x.failed then RaisedFailure(|s.attempts|)
    else Finished(Pick(c, Successes(x.children)), |s.attempts|, s.cancelled, s.peak, s.nodes)
  }

  lemma {:induction false} ChildrenBound(s: Branch, ranked: seq<Ranked>, r: Round, n: nat, offset: nat)
    requires n <= |ranked|
    ensures |Children(s, ranked, r, n)| <= |Attempts(r.active, offset, n)| <= n
  {
    if n > 0 {
      ChildrenBound(s, ranked, r, n - 1, offset);
    }
  }

  /** Every tick starts an attempt or leaves fewer entries waiting. */
  lemma Progress(task: Task, c: Config, s: Search, r: Round)
    requires Going(task, s)
    ensures
      var t := Recorded(c, s, r, Expand(task, c, s, r));
      && |s.attempts| <= |t.attempts| <= task.maxEpisodes
      && (|t.attempts| == |s.attempts| ==> |t.frontier| < |s.frontier|)
  {
    var x := Expand(task, c, s, r);
    var ranked := Cutoff(r.ranked, task.maxEpisodes - |s.attempts|);
    ChildrenBound(x.entry.state, ranked, r, |ranked|, |s.attempts|);
  }

  /** The search from any point of the loop: its result, and the variables it ends with. */
  function Explore(task: Task, c: Config, root: Branch, oracle: nat -> Round, s: Search): (Result, Search)
    requires |s.attempts| <= task.maxEpisodes
    decreases task.maxEpisodes - |s.attempts|, |s.frontier|
  {
    if !Going(task, s) then (Ends(root, s), s)
    else
      var r := oracle(s.tick);
      if r.cancelled then (Ends(root, s.(cancelled := true)), s.(cancelled := true))
      else if Exhausted(task, s, r) then Explore(task, c, root, oracle, Drop(s))
      else
        var x := Expand(task, c, s, r);
        var t := Recorded(c, s, r, x);
        Progress(task, c, s, r);
        if Settles(x) then (Decides(c, t, x), t) else Explore(task, c, root, oracle, t)
  }
}
