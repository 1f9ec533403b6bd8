/** What every search keeps, and when its attempt numbers and seeds repeat. */
module BeamTheorems {
  import opened Prelude
  import opened BranchReplay
  import opened BeamSpec

  // ---------------------------------------------------------------- the frontier

  /** The first is popped before the second, or they are the same: a smaller key, or an equal one and an older entry. */
  predicate NotAfter(a: Entry, b: Entry) {
    a.key < b.key || (a.key == b.key && a.counter <= b.counter)
  }

  lemma {:induction false} LeastIs(f: seq<Entry>)
    requires f != []
    ensures forall j :: 0 <= j < |f| ==> NotAfter(f[Least(f)], f[j])
  {
    var n := |f| - 1;
    if n > 0 {
      LeastIs(f[..n]);
      forall j | 0 <= j < |f| ensures NotAfter(f[Least(f)], f[j]) {
        if j < n {
          assert f[j] == f[..n][j];
        }
      }
    }
  }

  lemma WithoutIs(f: seq<Entry>, m: nat)
    requires m < |f|
    ensures |Without(f, m)| + 1 == |f|
    ensures multiset(Without(f, m)) + multiset{f[m]} == multiset(f)
    ensures forall x :: x in Without(f, m) ==> x in f
    ensures forall x :: x in f ==> x == f[m] || x in Without(f, m)
  {
    assert f == f[..m] + [f[m]] + f[m + 1..];
  }

  /** Nothing that is dropped is better than anything kept. */
  predicate KeepsBest(before: seq<Entry>, now: seq<Entry>) {
    && multiset(now) <= multiset(before)
    && forall x, y :: x in now && y in before && y !in now ==> NotAfter(x, y)
  }

  lemma {:induction false} KeepIs(f: seq<Entry>, width: nat)
    ensures KeepsBest(f, Keep(f, width))
    ensures forall x :: x in Keep(f, width) ==> x in f
    decreases width
  {
    if f != [] && width > 0 {
      var m := Least(f);
      var rest := Without(f, m);
      LeastIs(f);
      WithoutIs(f, m);
      KeepIs(rest, width - 1);
      var kept := Keep(rest, width - 1);
      assert multiset([f[m]] + kept) == multiset{f[m]} + multiset(kept);
    }
  }

  lemma CutIs(f: seq<Entry>, width: nat)
    ensures KeepsBest(f, Cut(f, width))
    ensures forall x :: x in Cut(f, width) ==> x in f
  {
    KeepIs(f, width);
  }

  // ---------------------------------------------------------------- one round

  predicate ChildFrom(s: Branch, child: Branch) {
    && child.reward == Sum(child.rewards)
    && child.depth <= s.depth + 1
    && (Stored(child) || (child.success && child.terminated))
  }

  lemma {:induction false} ChildrenAre(s: Branch, ranked: seq<Ranked>, r: Round, n: nat)
    requires Expandable(s) && n <= |ranked|
    ensures forall child :: child in Children(s, ranked, r, n) ==> ChildFrom(s, child)
  {
    if n > 0 {
      ChildrenAre(s, ranked, r, n - 1);
      ExecuteCounts(s, ranked[n - 1].action, r.share(|ranked|), ranked[n - 1].score, r.script(n - 1));
    }
  }

  /** The child that the i-th of `count` candidates led to, by what its environment answered. */
  predicate ChildOf(s: Branch, r: Round, count: nat, i: nat, child: Branch)
    requires i < |r.ranked|
  {
    && r.active(i)
    && Answers(s, r.ranked[i].action, r.share(count), r.ranked[i].score, r.script(i), Ran(child.(novelty := 0.0)))
    && child.novelty == r.novelty(i)
  }

  predicate Yields(s: Branch, script: Script) {
    Steps(s, script) || SucceedsEarly(s, script)
  }

  predicate HasSource(s: Branch, r: Round, count: nat, child: Branch)
    requires count <= |r.ranked|
  {
    exists i :: 0 <= i < count && ChildOf(s, r, count, i, child)
  }

  predicate HasChild(s: Branch, r: Round, count: nat, i: nat, children: seq<Branch>)
    requires i < |r.ranked|
  {
    exists child :: child in children && ChildOf(s, r, count, i, child)
  }

  /** The first `count` candidates led to these children, and to a failure or none. */
  ghost predicate LedTo(s: Branch, r: Round, count: nat, children: seq<Branch>, failed: bool) {
    && count <= |r.ranked|
    && (forall child :: child in children ==> HasSource(s, r, count, child))
    && (forall i :: 0 <= i < count && r.active(i) && Yields(s, r.script(i)) ==> HasChild(s, r, count, i, children))
    && (failed <==> exists i :: 0 <= i < count && r.active(i) && AttemptRaises(s, r.script(i)))
  }

  /** What one started candidate led to. */
  lemma CandidateAnswers(s: Branch, ranked: seq<Ranked>, r: Round, i: nat)
    requires i < |ranked| && ranked <= r.ranked && r.active(i)
    ensures
      var o := BeamSpec.Outcome(s, ranked, r, i);
      && (o.Failed? <==> AttemptRaises(s, r.script(i)))
      && (o.Ran? <==> Yields(s, r.script(i)))
      && (o.Ran? ==> ChildOf(s, r, |ranked|, i, o.child.(novelty := r.novelty(i))))
  {
    var o := BeamSpec.Outcome(s, ranked, r, i);
    assert ranked[i] == r.ranked[i];
    ExecuteAnswers(s, ranked[i].action, r.share(|ranked|), ranked[i].score, r.script(i));
    assert o.Ran? ==> o.child.(novelty := r.novelty(i)).(novelty := 0.0) == o.child;
  }

  /** The children that the i-th candidate adds. */
  function Added(s: Branch, ranked: seq<Ranked>, r: Round, i: nat): seq<Branch>
    requires i < |ranked|
  {
    var o := BeamSpec.Outcome(s, ranked, r, i);
    if r.active(i) && o.Ran? then [o.child.(novelty := r.novelty(i))] else []
  }

  predicate Fails(s: Branch, ranked: seq<Ranked>, r: Round, i: nat)
    requires i < |ranked|
  {
    r.active(i) && BeamSpec.Outcome(s, ranked, r, i).Failed?
  }

  lemma AddedAnswers(s: Branch, ranked: seq<Ranked>, r: Round, i: nat)
    requires i < |ranked| && ranked <= r.ranked
    ensures forall child :: child in Added(s, ranked, r, i) ==> ChildOf(s, r, |ranked|, i, child)
    ensures r.active(i) && Yields(s, r.script(i)) ==> Added(s, ranked, r, i) != []
    ensures Fails(s, ranked, r, i) <==> r.active(i) && AttemptRaises(s, r.script(i))
  {
    if r.active(i) {
      CandidateAnswers(s, ranked, r, i);
    }
  }

  /** The children are those the single candidates add. */
  lemma {:induction false} ChildrenAreAdded(s: Branch, ranked: seq<Ranked>, r: Round, n: nat)
    requires n <= |ranked|
    ensures forall child :: child in Children(s, ranked, r, n) ==> exists i :: 0 <= i < n && child in Added(s, ranked, r, i)
    ensures forall i, child :: 0 <= i < n && child in Added(s, ranked, r, i) ==> child in Children(s, ranked, r, n)
    ensures AnyFailed(s, ranked, r, n) <==> exists i :: 0 <= i < n && Fails(s, ranked, r, i)
  {
    if n > 0 {
      ChildrenAreAdded(s, ranked, r, n - 1);
      assert Children(s, ranked, r, n) == Children(s, ranked, r, n - 1) + Added(s, ranked, r, n - 1);
      assert AnyFailed(s, ranked, r, n) <==> AnyFailed(s, ranked, r, n - 1) || Fails(s, ranked, r, n - 1);
    }
  }

  lemma ChildHasSource(s: Branch, ranked: seq<Ranked>, r: Round, child: Branch)
    requires ranked <= r.ranked && child in Children(s, ranked, r, |ranked|)
    ensures HasSource(s, r, |ranked|, child)
  {
    ChildrenAreAdded(s, ranked, r, |ranked|);
    var i :| 0 <= i < |ranked| && child in Added(s, ranked, r, i);
    AddedAnswers(s, ranked, r, i);
  }

  lemma CandidateHasChild(s: Branch, ranked: seq<Ranked>, r: Round, i: nat)
    requires i < |ranked| && ranked <= r.ranked && r.active(i) && Yields(s, r.script(i))
    ensures HasChild(s, r, |ranked|, i, Children(s, ranked, r, |ranked|))
  {
    ChildrenAreAdded(s, ranked, r, |ranked|);
    AddedAnswers(s, ranked, r, i);
    assert Added(s, ranked, r, i)[0] in Children(s, ranked, r, |ranked|);
  }

  lemma FailureAnswers(s: Branch, ranked: seq<Ranked>, r: Round)
    requires ranked <= r.ranked
    ensures AnyFailed(s, ranked, r, |ranked|)
            <==> exists i :: 0 <= i < |ranked| && r.active(i) && AttemptRaises(s, r.script(i))
  {
    ChildrenAreAdded(s, ranked, r, |ranked|);
    forall i | 0 <= i < |ranked| ensures Fails(s, ranked, r, i) <==> r.active(i) && AttemptRaises(s, r.script(i)) {
      AddedAnswers(s, ranked, r, i);
    }
  }

  lemma ChildrenAnswer(s: Branch, ranked: seq<Ranked>, r: Round)
    requires ranked <= r.ranked
    ensures LedTo(s, r, |ranked|, Children(s, ranked, r, |ranked|), AnyFailed(s, ranked, r, |ranked|))
  {
    forall child | child in Children(s, ranked, r, |ranked|) ensures HasSource(s, r, |ranked|, child) {
      ChildHasSource(s, ranked, r, child);
    }
    forall i | 0 <= i < |ranked| && r.active(i) && Yields(s, r.script(i))
      ensures HasChild(s, r, |ranked|, i, Children(s, ranked, r, |ranked|))
    {
      CandidateHasChild(s, ranked, r, i);
    }
    FailureAnswers(s, ranked, r);
  }

  /** The entries of the open children, one for each in its order, rated by their priority. */
  predicate Opened(c: Config, xs: seq<Branch>, counter: nat, pushed: seq<Entry>) {
    && (forall k :: 0 <= k < |pushed| ==>
          && pushed[k].state in xs && !pushed[k].state.success && !pushed[k].state.terminated
          && pushed[k].key == -c.priority(pushed[k].state) && pushed[k].counter == counter + k)
    && (forall x :: x in xs && !x.success && !x.terminated ==> exists k :: 0 <= k < |pushed| && pushed[k].state == x)
  }

  lemma {:induction false} OpenAre(c: Config, xs: seq<Branch>, counter: nat)
    ensures Opened(c, xs, counter, Open(c, xs, counter))
  {
    if xs != [] {
      var n := |xs| - 1;
      OpenAre(c, xs[..n], counter);
      assert xs == xs[..n] + [xs[n]];
      var before, now := Open(c, xs[..n], counter), Open(c, xs, counter);
      forall x | x in xs && !x.success && !x.terminated
        ensures exists k :: 0 <= k < |now| && now[k].state == x
      {
        if x in xs[..n] {
          var k :| 0 <= k < |before| && before[k].state == x;
          assert now[k].state == x;
        } else {
          assert now[|before|].state == x;
        }
      }
    }
  }

  /** The k-th is of maximal priority, and the first that is. */
  predicate BestAt(c: Config, xs: seq<Branch>, k: nat)
    requires k < |xs|
  {
    && (forall j :: 0 <= j < k ==> c.priority(xs[j]) < c.priority(xs[k]))
    && (forall j :: k <= j < |xs| ==> c.priority(xs[j]) <= c.priority(xs[k]))
  }

  predicate BestOf(c: Config, s: Branch, xs: seq<Branch>) {
    exists k :: 0 <= k < |xs| && xs[k] == s && BestAt(c, xs, k)
  }

  predicate BestSoFar(c: Config, best: Option<Branch>, xs: seq<Branch>) {
    if xs == [] then best.None? else best.Some? && BestOf(c, best.value, xs)
  }

  /** One branch more takes over only with a higher priority. */
  lemma BestNext(c: Config, s: Branch, xs: seq<Branch>, x: Branch)
    requires BestOf(c, s, xs)
    ensures BestOf(c, if c.priority(x) > c.priority(s) then x else s, xs + [x])
  {
    var ys := xs + [x];
    var k :| 0 <= k < |xs| && xs[k] == s && BestAt(c, xs, k);
    if c.priority(x) > c.priority(s) {
      assert ys[|xs|] == x && BestAt(c, ys, |xs|);
    } else {
      assert ys[k] == s && BestAt(c, ys, k);
    }
  }

  lemma BestAlone(c: Config, x: Branch)
    ensures BestOf(c, x, [x])
  {
    assert [x][0] == x && BestAt(c, [x], 0);
  }

  lemma {:induction false} PickIs(c: Config, xs: seq<Branch>)
    requires xs != []
    ensures BestOf(c, Pick(c, xs), xs)
  {
    var n := |xs| - 1;
    assert xs == xs[..n] + [xs[n]];
    if n > 0 {
      PickIs(c, xs[..n]);
      BestNext(c, Pick(c, xs[..n]), xs[..n], xs[n]);
    } else {
      BestAlone(c, xs[0]);
    }
  }

  lemma {:induction false} BetterIs(c: Config, best: Option<Branch>, nodes: seq<Branch>, xs: seq<Branch>)
    requires BestSoFar(c, best, nodes)
    ensures BestSoFar(c, Better(c, best, xs), nodes + xs)
  {
    if xs == [] {
      assert nodes + xs == nodes;
    } else {
      var n := |xs| - 1;
      BetterIs(c, best, nodes, xs[..n]);
      assert nodes + xs == nodes + xs[..n] + [xs[n]];
      if nodes + xs[..n] == [] {
        assert nodes + xs == [xs[n]];
        BestAlone(c, xs[n]);
      } else {
        BestNext(c, Better(c, best, xs[..n]).value, nodes + xs[..n], xs[n]);
      }
    }
  }

  predicate NoSuccess(xs: seq<Branch>) {
    forall x :: x in xs ==> !x.success
  }

  lemma {:induction false} SuccessesEmpty(xs: seq<Branch>)
    ensures Successes(xs) == [] <==> NoSuccess(xs)
    ensures forall x :: x in Successes(xs) <==> x in xs && x.success
  {
    if xs != [] {
      var n := |xs| - 1;
      SuccessesEmpty(xs[..n]);
      assert xs == xs[..n] + [xs[n]];
    }
  }

  /** The first success of the round that no other success of it outranks. */
  predicate BestSuccessAt(c: Config, xs: seq<Branch>, k: nat)
    requires k < |xs|
  {
    && xs[k].success
    && (forall j :: 0 <= j < k && xs[j].success ==> c.priority(xs[j]) < c.priority(xs[k]))
    && (forall j :: k <= j < |xs| && xs[j].success ==> c.priority(xs[j]) <= c.priority(xs[k]))
  }

  predicate BestSuccess(c: Config, s: Branch, xs: seq<Branch>) {
    exists k :: 0 <= k < |xs| && xs[k] == s && BestSuccessAt(c, xs, k)
  }

  lemma PickNext(c: Config, xs: seq<Branch>, x: Branch)
    requires xs != []
    ensures Pick(c, xs + [x]) == if c.priority(x) > c.priority(Pick(c, xs)) then x else Pick(c, xs)
  {
    assert (xs + [x])[..|xs|] == xs;
  }

  lemma {:induction false} PickSuccess(c: Config, xs: seq<Branch>)
    requires Successes(xs) != []
    ensures BestSuccess(c, Pick(c, Successes(xs)), xs)
  {
    var n := |xs| - 1;
    var before, x := Successes(xs[..n]), xs[n];
    assert xs == xs[..n] + [x];
    assert Successes(xs) == before + (if x.success then [x] else []);
    if before == [] {
      SuccessesEmpty(xs[..n]);
      assert Successes(xs) == [x] && BestSuccessAt(c, xs, n);
    } else {
      PickSuccess(c, xs[..n]);
      SuccessNext(c, Pick(c, before), xs[..n], x);
      if x.success {
        PickNext(c, before, x);
      } else {
        assert Successes(xs) == before;
      }
    }
  }

  lemma SuccessNext(c: Config, s: Branch, xs: seq<Branch>, x: Branch)
    requires BestSuccess(c, s, xs)
    ensures BestSuccess(c, if x.success && c.priority(x) > c.priority(s) then x else s, xs + [x])
  {
    var ys := xs + [x];
    var k :| 0 <= k < |xs| && xs[k] == s && BestSuccessAt(c, xs, k);
    if x.success && c.priority(x) > c.priority(s) {
      assert ys[|xs|] == x && BestSuccessAt(c, ys, |xs|);
    } else {
      assert ys[k] == s && BestSuccessAt(c, ys, k);
    }
  }

  // ---------------------------------------------------------------- winners

  function Flatten(rounds: seq<seq<Branch>>): seq<Branch> {
    if rounds == [] then [] else Flatten(rounds[..|rounds| - 1]) + rounds[|rounds| - 1]
  }

  function Rounds(xs: seq<Expansion>): seq<seq<Branch>> {
    seq(|xs|, k requires 0 <= k < |xs| => xs[k].children)
  }

  predicate QuietRounds(rounds: seq<seq<Branch>>) {
    forall k :: 0 <= k < |rounds| ==> NoSuccess(rounds[k])
  }

  /**
   The promised winner: a best success of the first round that has one; without any success a
   node of maximal priority among all executed ones, or the root when none was executed.
   */
  predicate RightWinner(c: Config, root: Branch, winner: Branch, rounds: seq<seq<Branch>>) {
    if QuietRounds(rounds) then
      (if Flatten(rounds) == [] then winner == root else BestOf(c, winner, Flatten(rounds)))
    else
      var last := |rounds| - 1;
      QuietRounds(rounds[..last]) && BestSuccess(c, winner, rounds[last])
  }

  lemma RoundsAppend(xs: seq<Expansion>, x: Expansion)
    ensures Rounds(xs + [x]) == Rounds(xs) + [x.children]
    ensures Flatten(Rounds(xs + [x])) == Flatten(Rounds(xs)) + x.children
    ensures QuietRounds(Rounds(xs)) && NoSuccess(x.children) ==> QuietRounds(Rounds(xs + [x]))
  {
    var before, after := Rounds(xs), Rounds(xs + [x]);
    assert after == before + [x.children];
    assert after[..|before|] == before;
  }

  /** The first round with a success decides the search. */
  lemma SuccessDecides(c: Config, root: Branch, winner: Branch, xs: seq<Expansion>, x: Expansion)
    requires QuietRounds(Rounds(xs)) && BestSuccess(c, winner, x.children)
    ensures RightWinner(c, root, winner, Rounds(xs + [x]))
  {
    var before, after := Rounds(xs), Rounds(xs + [x]);
    assert after == before + [x.children];
    assert after[..|before|] == before && after[|before|] == x.children;
  }

  // ---------------------------------------------------------------- one expansion

  predicate FrontierOk(c: Config, root: Branch, f: seq<Entry>) {
    forall e :: e in f ==> Expandable(e.state) && (e == Entry(0.0, 0, root) || e.key == -c.priority(e.state))
  }

  predicate Older(f: seq<Entry>, counter: nat) {
    forall e :: e in f ==> e.counter < counter
  }

  /** A child of some branch popped below the step limit, whose reward is the sum of its own list. */
  predicate NodeOk(task: Task, s: Branch) {
    s.reward == Sum(s.rewards) && s.depth <= task.maxSteps && (Stored(s) || (s.success && s.terminated))
  }

  /**
   The best waiting branch was taken, below the step limit; its children are its own; every open
   child went on the frontier, and nothing that was cut from it was better than what was kept.
   */
  ghost predicate BestFirst(task: Task, c: Config, root: Branch, x: Expansion) {
    && FrontierOk(c, root, [x.entry] + x.waiting)
    && (forall w :: w in x.waiting ==> NotAfter(x.entry, w))
    && x.entry.state.depth < task.maxSteps
    && (forall child :: child in x.children ==> ChildFrom(x.entry.state, child) && NodeOk(task, child))
    && (exists counter :: Opened(c, x.children, counter, x.pushed) && Older([x.entry] + x.waiting, counter))
    && KeepsBest(x.waiting + x.pushed, x.frontier)
    && |x.frontier| == Kept(c, x)
  }

  /** How many entries remain: all of them once the search is settled, else as many as the beam takes. */
  function Kept(c: Config, x: Expansion): nat {
    var n := |x.waiting| + |x.pushed|;
    if x.failed || !NoSuccess(x.children) || n < c.beamWidth then n else c.beamWidth
  }

  lemma PoppedOk(c: Config, root: Branch, f: seq<Entry>)
    requires f != [] && FrontierOk(c, root, f)
    ensures
      var m := Least(f);
      && FrontierOk(c, root, [f[m]] + Without(f, m)) && FrontierOk(c, root, Without(f, m))
      && forall w :: w in Without(f, m) ==> NotAfter(f[m], w)
  {
    LeastIs(f);
    WithoutIs(f, Least(f));
  }

  lemma GrownOk(c: Config, root: Branch, waiting: seq<Entry>, s: Branch, xs: seq<Branch>, counter: nat)
    requires FrontierOk(c, root, waiting) && forall child :: child in xs ==> ChildFrom(s, child)
    ensures
      var grown := waiting + Open(c, xs, counter);
      && FrontierOk(c, root, grown) && KeepsBest(grown, grown)
      && FrontierOk(c, root, Cut(grown, c.beamWidth)) && KeepsBest(grown, Cut(grown, c.beamWidth))
  {
    OpenAre(c, xs, counter);
    CutIs(waiting + Open(c, xs, counter), c.beamWidth);
  }

  /** What makes an expansion of this frontier, apart from how its children came about. */
  predicate TakenFrom(c: Config, f: seq<Entry>, x: Expansion, counter: nat)
    requires f != []
  {
    && x.entry == f[Least(f)] && x.waiting == Without(f, Least(f))
    && x.pushed == Open(c, x.children, counter)
    && x.frontier == if Settles(x) then x.waiting + x.pushed else Cut(x.waiting + x.pushed, c.beamWidth)
  }

  lemma TakenIsBestFirst(task: Task, c: Config, root: Branch, f: seq<Entry>, x: Expansion, counter: nat)
    requires f != [] && FrontierOk(c, root, f) && TakenFrom(c, f, x, counter) && Older(f, counter)
    requires x.entry.state.depth < task.maxSteps
    requires forall child :: child in x.children ==> ChildFrom(x.entry.state, child)
    ensures BestFirst(task, c, root, x) && FrontierOk(c, root, x.frontier) && Older(x.frontier, counter + |x.pushed|)
  {
    PoppedOk(c, root, f);
    GrownOk(c, root, x.waiting, x.entry.state, x.children, counter);
    TakenKeeps(c, f, x, counter);
    TakenOlder(c, f, x, counter);
    assert forall child :: child in x.children ==> NodeOk(task, child);
  }

  lemma TakenKeeps(c: Config, f: seq<Entry>, x: Expansion, counter: nat)
    requires f != [] && TakenFrom(c, f, x, counter)
    ensures Opened(c, x.children, counter, x.pushed) && |x.frontier| == Kept(c, x)
  {
    OpenAre(c, x.children, counter);
    SuccessesEmpty(x.children);
  }

  lemma TakenOlder(c: Config, f: seq<Entry>, x: Expansion, counter: nat)
    requires f != [] && TakenFrom(c, f, x, counter) && Older(f, counter)
    ensures Older([x.entry] + x.waiting, counter) && Older(x.frontier, counter + |x.pushed|)
  {
    WithoutIs(f, Least(f));
    var grown := x.waiting + x.pushed;
    assert Older(grown, counter + |x.pushed|) by {
      OpenAre(c, x.children, counter);
    }
    CutIs(grown, c.beamWidth);
  }

  lemma ExpandTakes(task: Task, c: Config, s: Search, r: Round)
    requires Going(task, s)
    ensures TakenFrom(c, s.frontier, Expand(task, c, s, r), s.counter)
  {
  }

  lemma ExpandChildren(task: Task, c: Config, s: Search, r: Round)
    requires Going(task, s) && r.ranked != []
    ensures
      var x := Expand(task, c, s, r);
      && x.tick == s.tick && 0 < x.count <= |r.ranked|
      && |x.children| <= |Attempts(r.active, |s.attempts|, x.count)| <= task.maxEpisodes - |s.attempts|
      && (Expandable(x.entry.state) ==> forall child :: child in x.children ==> ChildFrom(x.entry.state, child))
  {
    var entry := s.frontier[Least(s.frontier)];
    var ranked := Cutoff(r.ranked, task.maxEpisodes - |s.attempts|);
    ChildrenBound(entry.state, ranked, r, |ranked|, |s.attempts|);
    if Expandable(entry.state) {
      ChildrenAre(entry.state, ranked, r, |ranked|);
    }
  }

  lemma CandidatesAnswer(c: Config, s: Search, r: Round, entry: Entry, waiting: seq<Entry>, ranked: seq<Ranked>)
    requires ranked <= r.ranked
    ensures
      var x := ExpandWith(c, s, r, entry, waiting, ranked);
      && x.entry == entry && x.count == |ranked| && x.tick == s.tick
      && LedTo(entry.state, r, |ranked|, x.children, x.failed)
  {
    ChildrenAnswer(entry.state, ranked, r);
  }

  /** The round's candidates are the first ranked ones, and its children what they led to. */
  lemma ExpandAnswers(task: Task, c: Config, s: Search, r: Round)
    requires Going(task, s)
    ensures
      var x := Expand(task, c, s, r);
      var left := task.maxEpisodes - |s.attempts|;
      && x.count == (if |r.ranked| <= left then |r.ranked| else left)
      && LedTo(x.entry.state, r, x.count, x.children, x.failed)
  {
    var m, ranked := Least(s.frontier), Cutoff(r.ranked, task.maxEpisodes - |s.attempts|);
    CutoffIs(r.ranked, task.maxEpisodes - |s.attempts|);
    CandidatesAnswer(c, s, r, s.frontier[m], Without(s.frontier, m), ranked);
  }

  lemma CutoffIs(ranked: seq<Ranked>, left: nat)
    ensures Cutoff(ranked, left) <= ranked
    ensures |Cutoff(ranked, left)| == if |ranked| <= left then |ranked| else left
  {
  }

  lemma ExpandIs(task: Task, c: Config, root: Branch, s: Search, r: Round)
    requires Going(task, s) && !Exhausted(task, s, r) && FrontierOk(c, root, s.frontier) && Older(s.frontier, s.counter)
    ensures
      var x := Expand(task, c, s, r);
      && BestFirst(task, c, root, x) && FrontierOk(c, root, x.frontier) && Older(x.frontier, s.counter + |x.pushed|)
      && x.entry == s.frontier[Least(s.frontier)] && x.waiting == Without(s.frontier, Least(s.frontier))
      && x.tick == s.tick && 0 < x.count <= |r.ranked|
      && |x.children| <= |Attempts(r.active, |s.attempts|, x.count)| <= task.maxEpisodes - |s.attempts|
      && (!Settles(x) ==> |x.frontier| <= c.beamWidth)
  {
    var x := Expand(task, c, s, r);
    ExpandTakes(task, c, s, r);
    ExpandChildren(task, c, s, r);
    assert x.entry in s.frontier;
    TakenIsBestFirst(task, c, root, s.frontier, x, s.counter);
  }

  // ---------------------------------------------------------------- from one expansion to the next

  /** Nothing came of this branch when it was popped at one of these ticks. */
  ghost predicate NothingCame(task: Task, oracle: nat -> Round, e: Entry, from: nat, tick: nat) {
    e.state.depth >= task.maxSteps || exists t :: from <= t < tick && oracle(t).ranked == []
  }

  /**
   What waits at `tick` was kept at `from`; what is gone was popped in between, one at each tick, had nothing to
   expand, and was no worse than what still waits.
   */
  ghost predicate Follows(task: Task, oracle: nat -> Round, before: seq<Entry>, now: seq<Entry>, from: nat, tick: nat) {
    && from <= tick && |before| == |now| + (tick - from)
    && multiset(now) <= multiset(before)
    && (forall e, w :: e in before && e !in now && w in now ==> NotAfter(e, w))
    && (forall e :: e in before && e !in now ==> NothingCame(task, oracle, e, from, tick))
  }

  function LastFrontier(root: Branch, xs: seq<Expansion>): seq<Entry> {
    if xs == [] then [Entry(0.0, 0, root)] else xs[|xs| - 1].frontier
  }

  function NextTick(xs: seq<Expansion>): nat {
    if xs == [] then 0 else xs[|xs| - 1].tick + 1
  }

  ghost predicate FollowsLast(task: Task, oracle: nat -> Round, root: Branch, xs: seq<Expansion>, now: seq<Entry>, tick: nat) {
    Follows(task, oracle, LastFrontier(root, xs), now, NextTick(xs), tick)
  }

  /** Each expansion works on what the one before it kept. */
  ghost predicate Chained(task: Task, oracle: nat -> Round, root: Branch, xs: seq<Expansion>) {
    forall k :: 0 <= k < |xs| ==> FollowsLast(task, oracle, root, xs[..k], [xs[k].entry] + xs[k].waiting, xs[k].tick)
  }

  lemma PoppedFollows(task: Task, oracle: nat -> Round, before: seq<Entry>, now: seq<Entry>, from: nat, tick: nat)
    requires Follows(task, oracle, before, now, from, tick) && now != []
    ensures Follows(task, oracle, before, [now[Least(now)]] + Without(now, Least(now)), from, tick)
  {
    var m := Least(now);
    var rest := Without(now, m);
    WithoutIs(now, m);
    assert multiset([now[m]] + rest) == multiset(now);
    assert forall e :: e in [now[m]] + rest <==> e in now;
  }

  lemma DroppedFollows(task: Task, oracle: nat -> Round, before: seq<Entry>, now: seq<Entry>, from: nat, tick: nat)
    requires Follows(task, oracle, before, now, from, tick) && now != []
    requires now[Least(now)].state.depth >= task.maxSteps || oracle(tick).ranked == []
    ensures Follows(task, oracle, before, Without(now, Least(now)), from, tick + 1)
  {
    var m := Least(now);
    var rest := Without(now, m);
    LeastIs(now);
    WithoutIs(now, m);
    forall e | e in before && e !in rest ensures NothingCame(task, oracle, e, from, tick + 1) {
      if e in now {
        assert e == now[m];
      } else {
        assert NothingCame(task, oracle, e, from, tick);
      }
    }
    forall e, w | e in before && e !in rest && w in rest ensures NotAfter(e, w) {
      assert e == now[m] || e !in now;
    }
  }

  lemma ChainedAppend(task: Task, oracle: nat -> Round, root: Branch, xs: seq<Expansion>, x: Expansion)
    requires Chained(task, oracle, root, xs) && FollowsLast(task, oracle, root, xs, [x.entry] + x.waiting, x.tick)
    ensures Chained(task, oracle, root, xs + [x])
  {
    var ys := xs + [x];
    forall k | 0 <= k < |ys|
      ensures FollowsLast(task, oracle, root, ys[..k], [ys[k].entry] + ys[k].waiting, ys[k].tick)
    {
      if k < |xs| {
        assert ys[..k] == xs[..k];
      } else {
        assert ys[..k] == xs;
      }
    }
  }

  // ---------------------------------------------------------------- the invariant of the search

  ghost predicate AllBestFirst(task: Task, c: Config, root: Branch, xs: seq<Expansion>) {
    forall x :: x in xs ==> BestFirst(task, c, root, x)
  }

  /** Where the expansions happened: at ticks that went up, of rounds that were not cancelled. */
  predicate Ticked(oracle: nat -> Round, xs: seq<Expansion>, tick: nat) {
    && (forall k :: 0 <= k < |xs| ==> xs[k].tick < tick && !oracle(xs[k].tick).cancelled
                                      && 0 < xs[k].count <= |oracle(xs[k].tick).ranked|)
    && (forall j, k :: 0 <= j < k < |xs| ==> xs[j].tick < xs[k].tick)
  }

  /** The candidates of a round and which of them were not held back. */
  datatype Started = Started(active: nat -> bool, count: nat)

  function StartedOf(oracle: nat -> Round, xs: seq<Expansion>): seq<Started> {
    seq(|xs|, k requires 0 <= k < |xs| => Started(oracle(xs[k].tick).active, xs[k].count))
  }

  /** Every round numbers its candidates from what was started before it. */
  function AllAttempts(rounds: seq<Started>): seq<nat> {
    if rounds == [] then []
    else
      var n := |rounds| - 1;
      var before := AllAttempts(rounds[..n]);
      before + Attempts(rounds[n].active, |before|, rounds[n].count)
  }

  lemma StartedAppend(oracle: nat -> Round, xs: seq<Expansion>, x: Expansion)
    ensures
      var before := AllAttempts(StartedOf(oracle, xs));
      AllAttempts(StartedOf(oracle, xs + [x])) == before + Attempts(oracle(x.tick).active, |before|, x.count)
  {
    var now := StartedOf(oracle, xs + [x]);
    assert now[..|xs|] == StartedOf(oracle, xs);
  }

  predicate Accounts(task: Task, c: Config, s: Search) {
    && |s.attempts| <= task.maxEpisodes
    && s.nodes == Flatten(Rounds(s.expansions)) && |s.nodes| <= |s.attempts|
    && BestSoFar(c, s.best, s.nodes)
    && 1 <= s.peak <= c.beamWidth
  }

  /** While the loop goes on: no success yet, and a frontier within the beam. */
  predicate LoopInv(task: Task, c: Config, s: Search) {
    && Accounts(task, c, s)
    && QuietRounds(Rounds(s.expansions))
    && |s.frontier| <= c.beamWidth
  }

  lemma BeginKeeps(task: Task, c: Config, root: Branch)
    requires c.beamWidth >= 1
    ensures LoopInv(task, c, Begin(root))
  {
  }

  lemma RecordKeeps(task: Task, c: Config, s: Search, r: Round)
    requires Accounts(task, c, s) && Going(task, s) && !Exhausted(task, s, r)
    ensures Accounts(task, c, Recorded(c, s, r, Expand(task, c, s, r)))
  {
    var x := Expand(task, c, s, r);
    ExpandChildren(task, c, s, r);
    RoundsAppend(s.expansions, x);
    BetterIs(c, s.best, s.nodes, x.children);
  }

  lemma RoundKeeps(task: Task, c: Config, s: Search, r: Round)
    requires LoopInv(task, c, s) && Going(task, s) && !Exhausted(task, s, r)
    requires !Settles(Expand(task, c, s, r))
    ensures LoopInv(task, c, Recorded(c, s, r, Expand(task, c, s, r)))
  {
    var x := Expand(task, c, s, r);
    RecordKeeps(task, c, s, r);
    RoundsAppend(s.expansions, x);
    SuccessesEmpty(x.children);
  }

  // ---------------------------------------------------------------- the result

  predicate ResultOk(c: Config, root: Branch, result: Result, s: Search) {
    && result.explored == |s.attempts|
    && (result.Finished? ==>
          && result.nodes == s.nodes && result.cancelled == s.cancelled && result.peak == s.peak
          && RightWinner(c, root, result.winner, Rounds(s.expansions)))
  }

  lemma DecidesOk(task: Task, c: Config, root: Branch, s: Search, r: Round, x: Expansion)
    requires LoopInv(task, c, s) && Settles(x)
    ensures
      var t := Recorded(c, s, r, x);
      ResultOk(c, root, Decides(c, t, x), t)
  {
    SuccessesEmpty(x.children);
    if !x.failed {
      PickSuccess(c, x.children);
      SuccessDecides(c, root, Pick(c, Successes(x.children)), s.expansions, x);
    }
  }

  /** The loop stops when nothing waits, the episodes are used up, it is cancelled, or a round settles it. */
  predicate Stopped(task: Task, oracle: nat -> Round, s: Search) {
    || s.frontier == []
    || |s.attempts| >= task.maxEpisodes
    || oracle(s.tick).cancelled
    || (s.expansions != [] && Settles(s.expansions[|s.expansions| - 1]))
  }

  lemma {:induction false} ExploreIs(task: Task, c: Config, root: Branch, oracle: nat -> Round, s: Search)
    requires LoopInv(task, c, s)
    ensures
      var (result, t) := Explore(task, c, root, oracle, s);
      Accounts(task, c, t) && ResultOk(c, root, result, t) && Stopped(task, oracle, t)
    decreases task.maxEpisodes - |s.attempts|, |s.frontier|
  {
    if Going(task, s) && !oracle(s.tick).cancelled {
      var r := oracle(s.tick);
      if Exhausted(task, s, r) {
        ExploreIs(task, c, root, oracle, Drop(s));
      } else {
        var x := Expand(task, c, s, r);
        Progress(task, c, s, r);
        if Settles(x) {
          RecordKeeps(task, c, s, r);
          DecidesOk(task, c, root, s, r, x);
        } else {
          RoundKeeps(task, c, s, r);
          ExploreIs(task, c, root, oracle, Recorded(c, s, r, x));
        }
      }
    }
  }

  // ---------------------------------------------------------------- what every expansion was

  /** What every expansion was, and how it came from the one before it. */
  ghost predicate History(task: Task, c: Config, root: Branch, oracle: nat -> Round, xs: seq<Expansion>) {
    && AllBestFirst(task, c, root, xs)
    && Chained(task, oracle, root, xs)
  }

  /** The frontier came from the last expansion, and is older than what will be pushed. */
  ghost predicate FrontierInv(task: Task, c: Config, root: Branch, oracle: nat -> Round, s: Search) {
    && FrontierOk(c, root, s.frontier) && Older(s.frontier, s.counter)
    && FollowsLast(task, oracle, root, s.expansions, s.frontier, s.tick)
  }

  lemma DropFollows(task: Task, c: Config, root: Branch, oracle: nat -> Round, s: Search)
    requires s.frontier != [] && FrontierInv(task, c, root, oracle, s) && Exhausted(task, s, oracle(s.tick))
    ensures FrontierInv(task, c, root, oracle, Drop(s))
  {
    DroppedFollows(task, oracle, LastFrontier(root, s.expansions), s.frontier, NextTick(s.expansions), s.tick);
    PoppedOk(c, root, s.frontier);
    WithoutIs(s.frontier, Least(s.frontier));
  }

  lemma RecordChain(task: Task, oracle: nat -> Round, root: Branch, xs: seq<Expansion>, frontier: seq<Entry>, x: Expansion)
    requires Chained(task, oracle, root, xs) && FollowsLast(task, oracle, root, xs, frontier, x.tick)
    requires frontier != [] && x.entry == frontier[Least(frontier)] && x.waiting == Without(frontier, Least(frontier))
    ensures Chained(task, oracle, root, xs + [x]) && FollowsLast(task, oracle, root, xs + [x], x.frontier, x.tick + 1)
  {
    PoppedFollows(task, oracle, LastFrontier(root, xs), frontier, NextTick(xs), x.tick);
    ChainedAppend(task, oracle, root, xs, x);
    assert (xs + [x])[|xs|] == x;
  }

  lemma HistoryAppend(task: Task, c: Config, root: Branch, oracle: nat -> Round, xs: seq<Expansion>, frontier: seq<Entry>,
                      x: Expansion)
    requires History(task, c, root, oracle, xs) && FollowsLast(task, oracle, root, xs, frontier, x.tick)
    requires frontier != [] && x.entry == frontier[Least(frontier)] && x.waiting == Without(frontier, Least(frontier))
    requires BestFirst(task, c, root, x)
    ensures History(task, c, root, oracle, xs + [x])
    ensures FollowsLast(task, oracle, root, xs + [x], x.frontier, x.tick + 1)
  {
    assert AllBestFirst(task, c, root, xs + [x]);
    RecordChain(task, oracle, root, xs, frontier, x);
  }

  lemma RecordFollows(task: Task, c: Config, root: Branch, oracle: nat -> Round, s: Search)
    requires Going(task, s) && !Exhausted(task, s, oracle(s.tick))
    requires History(task, c, root, oracle, s.expansions) && FrontierInv(task, c, root, oracle, s)
    ensures
      var t := Recorded(c, s, oracle(s.tick), Expand(task, c, s, oracle(s.tick)));
      History(task, c, root, oracle, t.expansions) && FrontierInv(task, c, root, oracle, t)
  {
    var x := Expand(task, c, s, oracle(s.tick));
    var t := Recorded(c, s, oracle(s.tick), x);
    ExpandIs(task, c, root, s, oracle(s.tick));
    HistoryAppend(task, c, root, oracle, s.expansions, s.frontier, x);
    assert FollowsLast(task, oracle, root, t.expansions, t.frontier, t.tick);
  }

  lemma {:induction false} ExploreHistory(task: Task, c: Config, root: Branch, oracle: nat -> Round, s: Search)
    requires |s.attempts| <= task.maxEpisodes
    requires History(task, c, root, oracle, s.expansions) && FrontierInv(task, c, root, oracle, s)
    ensures
      var t := Explore(task, c, root, oracle, s).1;
      History(task, c, root, oracle, t.expansions) && FrontierInv(task, c, root, oracle, t)
    decreases task.maxEpisodes - |s.attempts|, |s.frontier|
  {
    if Going(task, s) && !oracle(s.tick).cancelled {
      if Exhausted(task, s, oracle(s.tick)) {
        DropFollows(task, c, root, oracle, s);
        ExploreHistory(task, c, root, oracle, Drop(s));
      } else {
        var x := Expand(task, c, s, oracle(s.tick));
        Progress(task, c, s, oracle(s.tick));
        RecordFollows(task, c, root, oracle, s);
        if !Settles(x) {
          ExploreHistory(task, c, root, oracle, Recorded(c, s, oracle(s.tick), x));
        }
      }
    }
  }

  lemma TickedLater(oracle: nat -> Round, xs: seq<Expansion>, tick: nat)
    requires Ticked(oracle, xs, tick)
    ensures Ticked(oracle, xs, tick + 1)
  {
  }

  lemma TickedAppend(oracle: nat -> Round, xs: seq<Expansion>, x: Expansion, tick: nat)
    requires Ticked(oracle, xs, tick) && x.tick == tick
    requires !oracle(tick).cancelled && 0 < x.count <= |oracle(tick).ranked|
    ensures Ticked(oracle, xs + [x], tick + 1)
  {
  }

  lemma {:induction false} ExploreTicks(task: Task, c: Config, root: Branch, oracle: nat -> Round, s: Search)
    requires |s.attempts| <= task.maxEpisodes && Ticked(oracle, s.expansions, s.tick)
    ensures var t := Explore(task, c, root, oracle, s).1; Ticked(oracle, t.expansions, t.tick)
    decreases task.maxEpisodes - |s.attempts|, |s.frontier|
  {
    if Going(task, s) && !oracle(s.tick).cancelled {
      var r := oracle(s.tick);
      if Exhausted(task, s, r) {
        TickedLater(oracle, s.expansions, s.tick);
        ExploreTicks(task, c, root, oracle, Drop(s));
      } else {
        var x := Expand(task, c, s, r);
        Progress(task, c, s, r);
        ExpandChildren(task, c, s, r);
        TickedAppend(oracle, s.expansions, x, s.tick);
        if !Settles(x) {
          ExploreTicks(task, c, root, oracle, Recorded(c, s, r, x));
        }
      }
    }
  }

  // ---------------------------------------------------------------- what the oracle answered

  /** The children of a round are what the oracle's answers to its candidates led to. */
  ghost predicate RoundAnswered(oracle: nat -> Round, x: Expansion) {
    LedTo(x.entry.state, oracle(x.tick), x.count, x.children, x.failed)
  }

  ghost predicate Answered(oracle: nat -> Round, xs: seq<Expansion>) {
    forall k :: 0 <= k < |xs| ==> RoundAnswered(oracle, xs[k])
  }

  lemma AnsweredAppend(oracle: nat -> Round, xs: seq<Expansion>, x: Expansion)
    requires Answered(oracle, xs) && RoundAnswered(oracle, x)
    ensures Answered(oracle, xs + [x])
  {
    forall k | 0 <= k < |xs + [x]| ensures RoundAnswered(oracle, (xs + [x])[k]) {
      assert k < |xs| ==> (xs + [x])[k] == xs[k];
    }
  }

  lemma {:induction false} ExploreAnswers(task: Task, c: Config, root: Branch, oracle: nat -> Round, s: Search)
    requires |s.attempts| <= task.maxEpisodes && Answered(oracle, s.expansions)
    ensures Answered(oracle, Explore(task, c, root, oracle, s).1.expansions)
    decreases task.maxEpisodes - |s.attempts|, |s.frontier|
  {
    if Going(task, s) && !oracle(s.tick).cancelled {
      var r := oracle(s.tick);
      if Exhausted(task, s, r) {
        ExploreAnswers(task, c, root, oracle, Drop(s));
      } else {
        var x := Expand(task, c, s, r);
        var t := Recorded(c, s, r, x);
        ExpandAnswers(task, c, s, r);
        AnsweredAppend(oracle, s.expansions, x);
        Progress(task, c, s, r);
        if !Settles(x) {
          ExploreAnswers(task, c, root, oracle, t);
        }
      }
    }
  }

  /** The candidate, or the replay before it, was answered with success. */
  predicate AnsweredSuccess(s: Branch, script: Script) {
    SucceedsEarly(s, script) || (Steps(s, script) && script.reply(|s.actions|).success)
  }

  /** A round succeeds exactly when the environment of one of its started candidates answered with success. */
  lemma RoundSucceedsIff(s: Branch, r: Round, count: nat, children: seq<Branch>, failed: bool)
    requires LedTo(s, r, count, children, failed)
    ensures !NoSuccess(children) <==> exists i :: 0 <= i < count && r.active(i) && AnsweredSuccess(s, r.script(i))
  {
    if child :| child in children && child.success {
      assert HasSource(s, r, count, child);
      var i :| 0 <= i < count && ChildOf(s, r, count, i, child);
      assert AnsweredSuccess(s, r.script(i));
    }
    if i :| 0 <= i < count && r.active(i) && AnsweredSuccess(s, r.script(i)) {
      assert Yields(s, r.script(i)) && HasChild(s, r, count, i, children);
      var child :| child in children && ChildOf(s, r, count, i, child);
      SteppedNotEarly(s, r.script(i));
      assert child.success;
    }
  }

  lemma SteppedNotEarly(s: Branch, script: Script)
    ensures !(Steps(s, script) && SucceedsEarly(s, script))
  {
  }

  /** The environment of one of the round's started candidates answered with success, and this is its child. */
  predicate WonBy(oracle: nat -> Round, x: Expansion, winner: Branch)
    requires x.count <= |oracle(x.tick).ranked|
  {
    exists i :: 0 <= i < x.count && ChildOf(x.entry.state, oracle(x.tick), x.count, i, winner)
                && AnsweredSuccess(x.entry.state, oracle(x.tick).script(i))
  }

  lemma SuccessIsWonBy(oracle: nat -> Round, x: Expansion, winner: Branch)
    requires RoundAnswered(oracle, x) && winner in x.children && winner.success
    ensures WonBy(oracle, x, winner)
  {
    assert HasSource(x.entry.state, oracle(x.tick), x.count, winner);
  }

  // ---------------------------------------------------------------- how many candidates a round starts

  /** Every round started all of its candidates, or as many as there were episodes left. */
  predicate Filled(task: Task, oracle: nat -> Round, xs: seq<Expansion>) {
    forall k :: 0 <= k < |xs| ==> FillsRound(task, oracle, xs[..k], xs[k])
  }

  predicate FillsRound(task: Task, oracle: nat -> Round, before: seq<Expansion>, x: Expansion) {
    var n, left := |oracle(x.tick).ranked|, task.maxEpisodes - |AllAttempts(StartedOf(oracle, before))|;
    x.count == if n <= left then n else left
  }

  lemma FilledAppend(task: Task, oracle: nat -> Round, xs: seq<Expansion>, x: Expansion)
    requires Filled(task, oracle, xs) && FillsRound(task, oracle, xs, x)
    ensures Filled(task, oracle, xs + [x])
  {
    var ys := xs + [x];
    forall k | 0 <= k < |ys| ensures FillsRound(task, oracle, ys[..k], ys[k]) {
      if k < |xs| {
        assert ys[..k] == xs[..k];
      } else {
        assert ys[..k] == xs;
      }
    }
  }

  lemma ExpandCount(task: Task, c: Config, s: Search, r: Round)
    requires Going(task, s)
    ensures
      var left := task.maxEpisodes - |s.attempts|;
      Expand(task, c, s, r).count == if |r.ranked| <= left then |r.ranked| else left
  {
  }

  /** The attempts are those of the rounds, and every round was filled. */
  predicate FillInv(task: Task, oracle: nat -> Round, s: Search) {
    && |s.attempts| <= task.maxEpisodes
    && s.attempts == AllAttempts(StartedOf(oracle, s.expansions))
    && Filled(task, oracle, s.expansions)
  }

  lemma RoundFills(task: Task, c: Config, oracle: nat -> Round, s: Search)
    requires FillInv(task, oracle, s) && Going(task, s)
    ensures FillInv(task, oracle, Recorded(c, s, oracle(s.tick), Expand(task, c, s, oracle(s.tick))))
  {
    var x := Expand(task, c, s, oracle(s.tick));
    Progress(task, c, s, oracle(s.tick));
    ExpandCount(task, c, s, oracle(s.tick));
    StartedAppend(oracle, s.expansions, x);
    FilledAppend(task, oracle, s.expansions, x);
  }

  lemma {:induction false} ExploreFills(task: Task, c: Config, root: Branch, oracle: nat -> Round, s: Search)
    requires FillInv(task, oracle, s)
    ensures FillInv(task, oracle, Explore(task, c, root, oracle, s).1)
    decreases task.maxEpisodes - |s.attempts|, |s.frontier|
  {
    if Going(task, s) && !oracle(s.tick).cancelled {
      if Exhausted(task, s, oracle(s.tick)) {
        ExploreFills(task, c, root, oracle, Drop(s));
      } else {
        var x := Expand(task, c, s, oracle(s.tick));
        Progress(task, c, s, oracle(s.tick));
        RoundFills(task, c, oracle, s);
        if !Settles(x) {
          ExploreFills(task, c, root, oracle, Recorded(c, s, oracle(s.tick), x));
        }
      }
    }
  }

  // ---------------------------------------------------------------- cancellation and the widest frontier

  predicate HeldBack(oracle: nat -> Round, x: Expansion) {
    exists i :: 0 <= i < x.count && !oracle(x.tick).active(i)
  }

  lemma {:induction false} AttemptsFewer(active: nat -> bool, offset: nat, n: nat)
    ensures |Attempts(active, offset, n)| <= n
    ensures |Attempts(active, offset, n)| < n <==> exists i :: 0 <= i < n && !active(i)
  {
    if n > 0 {
      AttemptsFewer(active, offset, n - 1);
      if |Attempts(active, offset, n - 1)| < n - 1 {
        var i :| 0 <= i < n - 1 && !active(i);
      }
    }
  }

  predicate AnyHeldBack(oracle: nat -> Round, xs: seq<Expansion>) {
    exists k :: 0 <= k < |xs| && HeldBack(oracle, xs[k])
  }

  lemma HeldAppend(oracle: nat -> Round, xs: seq<Expansion>, x: Expansion)
    ensures AnyHeldBack(oracle, xs + [x]) <==> AnyHeldBack(oracle, xs) || HeldBack(oracle, x)
  {
    assert (xs + [x])[|xs|] == x;
    assert forall k :: 0 <= k < |xs| ==> (xs + [x])[k] == xs[k];
  }

  /** The peak is the size of the widest frontier kept for a next round, or of the first one. */
  predicate PeakOf(peak: nat, xs: seq<Expansion>) {
    && peak >= 1
    && (forall k :: 0 <= k < |xs| && !Settles(xs[k]) ==> |xs[k].frontier| <= peak)
    && (peak == 1 || exists k :: 0 <= k < |xs| && !Settles(xs[k]) && |xs[k].frontier| == peak)
  }

  lemma PeakAppend(peak: nat, xs: seq<Expansion>, x: Expansion)
    requires PeakOf(peak, xs)
    ensures PeakOf(if !Settles(x) && |x.frontier| > peak then |x.frontier| else peak, xs + [x])
  {
    var ys := xs + [x];
    assert ys[|xs|] == x;
    assert forall k :: 0 <= k < |xs| ==> ys[k] == xs[k];
  }

  lemma {:induction false} ExplorePeak(task: Task, c: Config, root: Branch, oracle: nat -> Round, s: Search)
    requires |s.attempts| <= task.maxEpisodes && PeakOf(s.peak, s.expansions)
    ensures var t := Explore(task, c, root, oracle, s).1; PeakOf(t.peak, t.expansions)
    decreases task.maxEpisodes - |s.attempts|, |s.frontier|
  {
    if Going(task, s) && !oracle(s.tick).cancelled {
      var r := oracle(s.tick);
      if Exhausted(task, s, r) {
        ExplorePeak(task, c, root, oracle, Drop(s));
      } else {
        var x := Expand(task, c, s, r);
        Progress(task, c, s, r);
        PeakAppend(s.peak, s.expansions, x);
        if !Settles(x) {
          ExplorePeak(task, c, root, oracle, Recorded(c, s, r, x));
        }
      }
    }
  }

  predicate Decided(s: Search) {
    s.expansions != [] && Settles(s.expansions[|s.expansions| - 1])
  }

  /** The callback stopped the loop while it could have gone on. */
  predicate StoppedByCallback(task: Task, oracle: nat -> Round, s: Search) {
    Going(task, s) && !Decided(s) && oracle(s.tick).cancelled
  }

  /** A search was cancelled exactly when a candidate was held back or the callback stopped the loop. */
  lemma {:induction false} ExploreCancels(task: Task, c: Config, root: Branch, oracle: nat -> Round, s: Search)
    requires |s.attempts| <= task.maxEpisodes && !Decided(s)
    requires s.cancelled <==> AnyHeldBack(oracle, s.expansions)
    ensures
      var t := Explore(task, c, root, oracle, s).1;
      t.cancelled <==> AnyHeldBack(oracle, t.expansions) || StoppedByCallback(task, oracle, t)
    decreases task.maxEpisodes - |s.attempts|, |s.frontier|
  {
    if Going(task, s) && !oracle(s.tick).cancelled {
      var r := oracle(s.tick);
      if Exhausted(task, s, r) {
        ExploreCancels(task, c, root, oracle, Drop(s));
      } else {
        var x := Expand(task, c, s, r);
        Progress(task, c, s, r);
        HeldAppend(oracle, s.expansions, x);
        AttemptsFewer(r.active, |s.attempts|, x.count);
        if !Settles(x) {
          ExploreCancels(task, c, root, oracle, Recorded(c, s, r, x));
        }
      }
    }
  }

  // ---------------------------------------------------------------- failures

  predicate NoneFailed(xs: seq<Expansion>) {
    forall k :: 0 <= k < |xs| ==> !xs[k].failed
  }

  /** A search raises exactly when its last round had a failure; no earlier round had one. */
  predicate RaisesIff(result: Result, xs: seq<Expansion>) {
    && (result.RaisedFailure? <==> xs != [] && xs[|xs| - 1].failed)
    && NoneFailed(if result.RaisedFailure? then xs[..|xs| - 1] else xs)
  }

  lemma {:induction false} ExploreRaises(task: Task, c: Config, root: Branch, oracle: nat -> Round, s: Search)
    requires |s.attempts| <= task.maxEpisodes && NoneFailed(s.expansions)
    ensures var (result, t) := Explore(task, c, root, oracle, s); RaisesIff(result, t.expansions)
    decreases task.maxEpisodes - |s.attempts|, |s.frontier|
  {
    if Going(task, s) && !oracle(s.tick).cancelled {
      var r := oracle(s.tick);
      if Exhausted(task, s, r) {
        ExploreRaises(task, c, root, oracle, Drop(s));
      } else {
        var x := Expand(task, c, s, r);
        Progress(task, c, s, r);
        assert (s.expansions + [x])[..|s.expansions|] == s.expansions;
        if !Settles(x) {
          ExploreRaises(task, c, root, oracle, Recorded(c, s, r, x));
        }
      }
    }
  }

  // ---------------------------------------------------------------- how branches are rated

  lemma Difference(weight: real, a: real, b: real)
    ensures weight * b - weight * a == weight * (b - a)
  {
  }

  /** Two branches differ in priority by what they differ in: reward and novelty, where these count, cost, depth and rank. */
  lemma PriorityDiffers(w: Weights, a: Branch, b: Branch)
    ensures
      var reward := if w.usesReward then w.reward * (b.reward - a.reward) else 0.0;
      var novelty := if w.usesNovelty then w.novelty * (b.novelty - a.novelty) else 0.0;
      Weighted(w)(b) - Weighted(w)(a)
      == reward + novelty + w.ranking * (b.ranking - a.ranking)
         - w.cost * (b.cost - a.cost) - w.depthPenalty * (b.depth as real - a.depth as real)
  {
    Difference(w.reward, a.reward, b.reward);
    Difference(w.novelty, a.novelty, b.novelty);
    Difference(w.ranking, a.ranking, b.ranking);
    Difference(w.cost, a.cost, b.cost);
    Difference(w.depthPenalty, a.depth as real, b.depth as real);
    assert !w.usesReward ==> w.reward * 0.0 == 0.0;
    assert !w.usesNovelty ==> w.novelty * 0.0 == 0.0;
  }

  lemma NothingIsRatedZero(w: Weights, s: Branch)
    requires s.reward == s.novelty == s.ranking == s.cost == 0.0 && s.depth == 0
    ensures Weighted(w)(s) == 0.0
  {
  }
}
