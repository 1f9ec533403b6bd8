/** Turning whatever the model returned into a ranking of the candidates, and nothing else. */
module Ranking {

  /** `id` is the action's identity; the fingerprint stands for channel and payload. */
  datatype Action = Action(id: nat, fingerprint: nat)

  datatype Scored = Scored(action: Action, score: real)

  /** The model may return scored items or bare actions. */
  datatype Item = WithScore(action: Action, score: real) | Bare(action: Action)

  predicate DistinctActions(xs: seq<Action>) {
    forall i, j :: 0 <= i < j < |xs| ==> xs[i].id != xs[j].id
  }

  predicate DistinctScored(xs: seq<Scored>) {
    forall i, j :: 0 <= i < j < |xs| ==> xs[i].action.id != xs[j].action.id
  }

  predicate Descending(xs: seq<Scored>) {
    forall i, j :: 0 <= i < j < |xs| ==> xs[i].score >= xs[j].score
  }

  predicate Ranks(xs: seq<Scored>, a: Action) {
    exists i :: 0 <= i < |xs| && xs[i].action == a
  }

  predicate HasId(xs: seq<Scored>, id: nat) {
    exists i :: 0 <= i < |xs| && xs[i].action.id == id
  }

  function Clamp(x: real): real {
    if x < 0.0 then 0.0 else x
  }

  /** The score of a returned item: its own, or one that falls with its position. */
  function ItemScore(item: Item, index: nat): real {
    if item.WithScore? then item.score else Clamp(1.0 - index as real * 0.01)
  }

  /** The model's own score, or 1.00, 0.99, ... by the item's place, and never below zero. */
  predicate ScoredAs(item: Item, index: nat, score: real) {
    && (item.WithScore? ==> score == item.score)
    && (item.Bare? ==> score == if index >= 100 then 0.0 else (100 - index) as real / 100.0)
  }

  /** The i-th item is the first of its identity and gave this action its score. */
  predicate GivenAt(items: seq<Item>, i: nat, x: Scored) {
    && i < |items|
    && items[i].action.id == x.action.id && ScoredAs(items[i], i, x.score)
    && forall j :: 0 <= j < i ==> items[j].action.id != x.action.id
  }

  predicate Given(items: seq<Item>, x: Scored) {
    exists i :: 0 <= i < |items| && GivenAt(items, i, x)
  }

  /** No item mentions the action, which is scored by its place among the candidates. */
  predicate Filled(items: seq<Item>, candidates: seq<Action>, x: Scored) {
    && (forall i :: 0 <= i < |items| ==> items[i].action.id != x.action.id)
    && exists j :: 0 <= j < |candidates| && candidates[j] == x.action && FilledAt(j, x.score)
  }

  /** 0.49, 0.48, ... by the candidate's place, and never below zero. */
  predicate FilledAt(place: nat, score: real) {
    score == if place >= 49 then 0.0 else (49 - place) as real / 100.0
  }

  predicate Unmentioned(items: seq<Item>, x: Scored) {
    forall i :: 0 <= i < |items| ==> items[i].action.id != x.action.id
  }

  /** The model mentioned the one before the other; or only the one; or neither, and it comes first among the candidates. */
  predicate MentionedBefore(items: seq<Item>, candidates: seq<Action>, x: Scored, y: Scored) {
    || (exists i, j :: 0 <= i < j < |items| && GivenAt(items, i, x) && GivenAt(items, j, y))
    || (Given(items, x) && Unmentioned(items, y))
    || (Unmentioned(items, x) && Unmentioned(items, y)
        && exists m, n :: 0 <= m < n < |candidates| && candidates[m] == x.action && candidates[n] == y.action)
  }

  predicate InMentionOrder(items: seq<Item>, candidates: seq<Action>, xs: seq<Scored>) {
    forall p, q :: 0 <= p < q < |xs| ==> MentionedBefore(items, candidates, xs[p], xs[q])
  }

  /** Equal scores stay in the order in which they were. */
  predicate StableIn(xs: seq<Scored>, ys: seq<Scored>) {
    forall i, j, p, q :: 0 <= i < j < |ys| && 0 <= p < |xs| && 0 <= q < |xs| && TiedPair(xs, ys, i, j, p, q) ==> p < q
  }

  predicate TiedPair(xs: seq<Scored>, ys: seq<Scored>, i: nat, j: nat, p: nat, q: nat)
    requires i < |ys| && j < |ys| && p < |xs| && q < |xs|
  {
    ys[i] == xs[p] && ys[j] == xs[q] && ys[i].score == ys[j].score
  }

  predicate TiesInMentionOrder(items: seq<Item>, candidates: seq<Action>, ys: seq<Scored>) {
    forall i, j :: 0 <= i < j < |ys| && ys[i].score == ys[j].score ==> MentionedBefore(items, candidates, ys[i], ys[j])
  }

  predicate AllGiven(items: seq<Item>, xs: seq<Scored>) {
    forall x :: x in xs ==> Given(items, x)
  }

  predicate AllScored(items: seq<Item>, candidates: seq<Action>, xs: seq<Scored>) {
    forall x :: x in xs ==> Given(items, x) || Filled(items, candidates, x)
  }

  method Allowed(candidates: seq<Action>, id: nat) returns (found: bool, action: Action)
    ensures found ==> action in candidates && action.id == id
    ensures !found ==> forall i :: 0 <= i < |candidates| ==> candidates[i].id != id
  {
    found, action := false, Action(id, 0);
    for i := 0 to |candidates|
      invariant found ==> action in candidates && action.id == id
      invariant !found ==> forall j :: 0 <= j < i ==> candidates[j].id != id
    {
      if candidates[i].id == id {
        found, action := true, candidates[i];
      }
    }
  }

  /** Stable: an equal score goes behind those already placed. */
  method Insert(ys: seq<Scored>, x: Scored) returns (zs: seq<Scored>, ghost place: nat)
    requires Descending(ys)
    ensures place <= |ys| && zs == ys[..place] + [x] + ys[place..]
    ensures forall j :: place <= j < |ys| ==> ys[j].score < x.score
    ensures Descending(zs) && |zs| == |ys| + 1 && multiset(zs) == multiset(ys) + multiset{x}
  {
    var k := |ys|;
    while k > 0 && ys[k - 1].score < x.score
      invariant 0 <= k <= |ys|
      invariant k < |ys| ==> ys[k].score < x.score
    {
      k := k - 1;
    }
    zs, place := ys[..k] + [x] + ys[k..], k;
    PlacedDescending(ys, k, x, zs);
    PlacedMembers(ys, k, x, zs);
  }

  lemma PlacedMembers(ys: seq<Scored>, k: nat, x: Scored, zs: seq<Scored>)
    requires k <= |ys| && zs == ys[..k] + [x] + ys[k..]
    ensures multiset(zs) == multiset(ys) + multiset{x} && |zs| == |ys| + 1
  {
    assert ys == ys[..k] + ys[k..];
  }

  lemma PlacedDescending(ys: seq<Scored>, k: nat, x: Scored, zs: seq<Scored>)
    requires Descending(ys) && k <= |ys| && zs == ys[..k] + [x] + ys[k..]
    requires (k < |ys| ==> ys[k].score < x.score) && (k > 0 ==> ys[k - 1].score >= x.score)
    ensures Descending(zs)
  {
    PlacedAt(ys, k, x, zs);
    forall i, j | 0 <= i < j < |zs| ensures zs[i].score >= zs[j].score {
      if i == k {
        assert zs[j] == ys[j - 1];
      } else if j == k {
        assert zs[i] == ys[i];
      } else {
        assert zs[i] == ys[if i < k then i else i - 1] && zs[j] == ys[if j < k then j else j - 1];
      }
    }
  }

  lemma PlacedAt(ys: seq<Scored>, k: nat, x: Scored, zs: seq<Scored>)
    requires k <= |ys| && zs == ys[..k] + [x] + ys[k..]
    ensures |zs| == |ys| + 1 && zs[k] == x
    ensures forall i :: 0 <= i < k ==> zs[i] == ys[i]
    ensures forall i :: k < i < |zs| ==> zs[i] == ys[i - 1]
    ensures forall i :: k <= i < |ys| ==> zs[i + 1] == ys[i]
  {
  }

  /** Where an item that was there before stands in the list. */
  lemma WasBefore(xs: seq<Scored>, n: nat, ys: seq<Scored>, y: Scored, p: nat)
    requires n < |xs| && DistinctScored(xs) && multiset(ys) == multiset(xs[..n]) && y in ys && p <= n && xs[p] == y
    ensures p < n
  {
    assert y in multiset(xs[..n]);
    var m :| 0 <= m < n && xs[m] == y;
  }

  lemma StableStep(xs: seq<Scored>, n: nat, ys: seq<Scored>, k: nat, zs: seq<Scored>)
    requires n < |xs| && DistinctScored(xs) && multiset(ys) == multiset(xs[..n]) && StableIn(xs[..n], ys)
    requires k <= |ys| && zs == ys[..k] + [xs[n]] + ys[k..] && forall j :: k <= j < |ys| ==> ys[j].score < xs[n].score
    ensures StableIn(xs[..n + 1], zs)
  {
    PlacedAt(ys, k, xs[n], zs);
    assert forall j :: k < j < |zs| ==> zs[j].score < zs[k].score;
    var now := xs[..n + 1];
    forall i, j, p, q | 0 <= i < j < |zs| && 0 <= p < |now| && 0 <= q < |now| && TiedPair(now, zs, i, j, p, q)
      ensures p < q
    {
      if i != k {
        var a := if i < k then i else i - 1;
        WasBefore(xs, n, ys, ys[a], p);
        if j == k {
          assert q == n;
        } else {
          var b := if j < k then j else j - 1;
          WasBefore(xs, n, ys, ys[b], q);
          StablePair(xs[..n], ys, a, b, p, q);
        }
      }
    }
  }

  lemma StablePair(xs: seq<Scored>, ys: seq<Scored>, i: nat, j: nat, p: nat, q: nat)
    requires StableIn(xs, ys) && i < j < |ys| && p < |xs| && q < |xs|
    requires ys[i] == xs[p] && ys[j] == xs[q] && ys[i].score == ys[j].score
    ensures p < q
  {
    assert TiedPair(xs, ys, i, j, p, q);
  }

  /** The first n items, sorted. */
  ghost predicate Sorts(xs: seq<Scored>, n: nat, ys: seq<Scored>) {
    && n <= |xs| && Descending(ys) && multiset(ys) == multiset(xs[..n])
    && (DistinctScored(xs) ==> StableIn(xs[..n], ys))
  }

  lemma SortsNext(xs: seq<Scored>, n: nat, ys: seq<Scored>, place: nat, zs: seq<Scored>)
    requires n < |xs| && Sorts(xs, n, ys) && Descending(zs)
    requires place <= |ys| && zs == ys[..place] + [xs[n]] + ys[place..]
    requires forall j :: place <= j < |ys| ==> ys[j].score < xs[n].score
    ensures Sorts(xs, n + 1, zs)
  {
    PlacedMembers(ys, place, xs[n], zs);
    assert xs[..n + 1] == xs[..n] + [xs[n]];
    if DistinctScored(xs) {
      StableStep(xs, n, ys, place, zs);
    }
  }

  /** What a sorted list of the same items keeps. */
  lemma SortedKeeps(xs: seq<Scored>, ys: seq<Scored>)
    requires multiset(ys) == multiset(xs)
    ensures forall a: Action :: Ranks(ys, a) <==> Ranks(xs, a)
  {
    forall a: Action ensures Ranks(ys, a) <==> Ranks(xs, a) {
      if Ranks(ys, a) {
        var i :| 0 <= i < |ys| && ys[i].action == a;
        assert ys[i] in multiset(xs);
        assert ys[i] in xs;
      }
      if Ranks(xs, a) {
        var i :| 0 <= i < |xs| && xs[i].action == a;
        assert xs[i] in multiset(ys);
        assert xs[i] in ys;
      }
    }
  }

  lemma {:induction false} DistinctCounts(xs: seq<Scored>)
    ensures DistinctScored(xs) ==> forall x, y :: x in xs && y in xs && x.action.id == y.action.id ==> x == y && multiset(xs)[x] == 1
  {
    if xs != [] && DistinctScored(xs) {
      var n := |xs| - 1;
      DistinctCounts(xs[..n]);
      assert xs == xs[..n] + [xs[n]];
      assert xs[n] !in xs[..n];
    }
  }

  lemma SortedDistinct(xs: seq<Scored>, ys: seq<Scored>)
    requires multiset(ys) == multiset(xs) && DistinctScored(xs)
    ensures DistinctScored(ys)
  {
    DistinctCounts(xs);
    forall i, j | 0 <= i < j < |ys| ensures ys[i].action.id != ys[j].action.id {
      assert ys[i] in multiset(xs) && ys[j] in multiset(xs);
      if ys[i].action.id == ys[j].action.id {
        Twice(ys, i, j);
      }
    }
  }

  lemma Twice(ys: seq<Scored>, i: nat, j: nat)
    requires i < j < |ys| && ys[i] == ys[j]
    ensures multiset(ys)[ys[i]] >= 2
  {
    assert ys == ys[..i] + [ys[i]] + ys[i + 1..j] + [ys[j]] + ys[j + 1..];
  }

  method SortDescending(xs: seq<Scored>) returns (ys: seq<Scored>)
    ensures Descending(ys) && multiset(ys) == multiset(xs)
    ensures DistinctScored(xs) ==> DistinctScored(ys) && StableIn(xs, ys)
    ensures forall a: Action :: Ranks(ys, a) <==> Ranks(xs, a)
  {
    ys := [];
    for i := 0 to |xs|
      invariant Sorts(xs, i, ys)
    {
      ghost var before, place := ys, 0;
      ys, place := Insert(ys, xs[i]);
      SortsNext(xs, i, before, place, ys);
    }
    assert xs[..|xs|] == xs;
    SortedKeeps(xs, ys);
    if DistinctScored(xs) {
      SortedDistinct(xs, ys);
    }
  }

  predicate Known(xs: seq<Scored>, candidates: seq<Action>) {
    forall i :: 0 <= i < |xs| ==> xs[i].action in candidates
  }

  /** An item seen so far either names no candidate or has been taken. */
  predicate MentionsTaken(items: seq<Item>, n: nat, candidates: seq<Action>, seen: set<nat>)
    requires n <= |items|
  {
    forall j :: 0 <= j < n ==>
      items[j].action.id in seen || forall m :: 0 <= m < |candidates| ==> candidates[m].id != items[j].action.id
  }

  /** What the model returned, restricted to the candidates, each at its first mention. */
  method TakeReturned(items: seq<Item>, candidates: seq<Action>) returns (normalized: seq<Scored>, seen: set<nat>)
    ensures DistinctScored(normalized) && Known(normalized, candidates) && AllGiven(items, normalized)
    ensures forall id: nat :: id in seen <==> HasId(normalized, id)
    ensures MentionsTaken(items, |items|, candidates, seen)
    ensures InMentionOrder(items, candidates, normalized)
  {
    normalized, seen := [], {};
    for i := 0 to |items|
      invariant DistinctScored(normalized) && Known(normalized, candidates) && AllGiven(items, normalized)
      invariant forall id: nat :: id in seen <==> HasId(normalized, id)
      invariant MentionsTaken(items, i, candidates, seen)
      invariant InMentionOrder(items, candidates, normalized) && MentionedUpTo(items, i, normalized)
    {
      var found, action := Allowed(candidates, items[i].action.id);
      if found && action.id !in seen {
        var x := Scored(action, ItemScore(items[i], i));
        FirstMention(items, i, candidates, seen, x);
        MentionedNext(items, candidates, i, normalized, x);
        AppendsId(normalized, x);
        normalized, seen := normalized + [x], seen + {action.id};
      }
    }
  }

  predicate GivenBefore(items: seq<Item>, n: nat, x: Scored) {
    exists i :: 0 <= i < n && GivenAt(items, i, x)
  }

  predicate MentionedUpTo(items: seq<Item>, n: nat, xs: seq<Scored>) {
    forall x :: x in xs ==> GivenBefore(items, n, x)
  }

  lemma MentionedNext(items: seq<Item>, candidates: seq<Action>, n: nat, xs: seq<Scored>, x: Scored)
    requires InMentionOrder(items, candidates, xs) && MentionedUpTo(items, n, xs) && GivenAt(items, n, x)
    ensures InMentionOrder(items, candidates, xs + [x]) && MentionedUpTo(items, n + 1, xs + [x])
  {
    var ys := xs + [x];
    forall p, q | 0 <= p < q < |ys| ensures MentionedBefore(items, candidates, ys[p], ys[q]) {
      assert ys[p] == xs[p];
      if q == |xs| {
        assert GivenBefore(items, n, xs[p]);
        var i :| 0 <= i < n && GivenAt(items, i, xs[p]);
      } else {
        assert ys[q] == xs[q];
      }
    }
    forall y | y in ys ensures GivenBefore(items, n + 1, y) {
      if y in xs {
        assert GivenBefore(items, n, y);
      }
    }
  }

  lemma ItemScoreIs(item: Item, index: nat)
    ensures ScoredAs(item, index, ItemScore(item, index))
  {
  }

  lemma FirstMention(items: seq<Item>, i: nat, candidates: seq<Action>, seen: set<nat>, x: Scored)
    requires i < |items| && MentionsTaken(items, i, candidates, seen) && x.action.id !in seen
    requires x.action in candidates && x.action.id == items[i].action.id && x.score == ItemScore(items[i], i)
    ensures Given(items, x) && GivenAt(items, i, x)
  {
    ItemScoreIs(items[i], i);
    var m :| 0 <= m < |candidates| && candidates[m] == x.action;
    assert forall j :: 0 <= j < i ==> items[j].action.id != candidates[m].id;
    assert GivenAt(items, i, x);
  }

  lemma AppendsId(xs: seq<Scored>, x: Scored)
    ensures forall id: nat :: HasId(xs + [x], id) <==> HasId(xs, id) || id == x.action.id
  {
    forall id: nat | HasId(xs, id) || id == x.action.id ensures HasId(xs + [x], id) {
      if id == x.action.id {
        assert (xs + [x])[|xs|].action.id == id;
      } else {
        var i :| 0 <= i < |xs| && xs[i].action.id == id;
        assert (xs + [x])[i].action.id == id;
      }
    }
  }

  lemma OmittedIsFilled(items: seq<Item>, candidates: seq<Action>, seen: set<nat>, i: nat, x: Scored)
    requires MentionsTaken(items, |items|, candidates, seen) && i < |candidates| && candidates[i].id !in seen
    requires x == Scored(candidates[i], Clamp(0.49 - i as real * 0.01))
    ensures Filled(items, candidates, x) && Unmentioned(items, x)
  {
    assert FilledAt(i, x.score);
  }

  /** What is ranked so far was given, or is one of the first n candidates that nobody mentioned. */
  predicate GivenOrEarlier(items: seq<Item>, candidates: seq<Action>, n: nat, xs: seq<Scored>) {
    forall p :: 0 <= p < |xs| ==>
      Given(items, xs[p]) || (Unmentioned(items, xs[p]) && exists m :: 0 <= m < n <= |candidates| && candidates[m] == xs[p].action)
  }

  lemma OmittedNext(items: seq<Item>, candidates: seq<Action>, n: nat, xs: seq<Scored>, x: Scored)
    requires n < |candidates| && InMentionOrder(items, candidates, xs) && GivenOrEarlier(items, candidates, n, xs)
    requires Unmentioned(items, x) && x.action == candidates[n]
    ensures InMentionOrder(items, candidates, xs + [x]) && GivenOrEarlier(items, candidates, n + 1, xs + [x])
  {
    var ys := xs + [x];
    forall p, q | 0 <= p < q < |ys| ensures MentionedBefore(items, candidates, ys[p], ys[q]) {
      if q == |xs| {
        assert ys[q] == x && ys[p] == xs[p];
        if !Given(items, xs[p]) {
          var m :| 0 <= m < n && candidates[m] == xs[p].action;
          assert candidates[n] == ys[q].action;
        }
      }
    }
    forall p | 0 <= p < |ys|
      ensures Given(items, ys[p]) || (Unmentioned(items, ys[p]) && exists m :: 0 <= m < n + 1 && candidates[m] == ys[p].action)
    {
      if p < |xs| && !Given(items, xs[p]) {
        var m :| 0 <= m < n && candidates[m] == xs[p].action;
        assert candidates[m] == ys[p].action;
      }
    }
  }

  /** Candidates the model did not mention go behind, with scores that fall with their position. */
  method AddOmitted(items: seq<Item>, returned: seq<Scored>, seen: set<nat>, candidates: seq<Action>)
    returns (normalized: seq<Scored>)
    requires DistinctScored(returned) && Known(returned, candidates) && AllGiven(items, returned)
    requires forall id: nat :: id in seen <==> HasId(returned, id)
    requires MentionsTaken(items, |items|, candidates, seen) && InMentionOrder(items, candidates, returned)
    ensures InMentionOrder(items, candidates, normalized)
    ensures Known(normalized, candidates) && (DistinctActions(candidates) ==> DistinctScored(normalized))
    ensures AllScored(items, candidates, normalized)
    ensures forall i :: 0 <= i < |candidates| ==> HasId(normalized, candidates[i].id)
  {
    normalized := returned;
    for i := 0 to |candidates|
      invariant Known(normalized, candidates) && (DistinctActions(candidates) ==> DistinctScored(normalized))
      invariant AllScored(items, candidates, normalized)
      invariant InMentionOrder(items, candidates, normalized) && GivenOrEarlier(items, candidates, i, normalized)
      invariant forall id: nat :: id in seen ==> HasId(normalized, id)
      invariant forall m :: 0 <= m < i ==> HasId(normalized, candidates[m].id)
      invariant DistinctActions(candidates) ==>
                  forall m :: i <= m < |candidates| && candidates[m].id !in seen ==> !HasId(normalized, candidates[m].id)
    {
      if candidates[i].id !in seen {
        var x := Scored(candidates[i], Clamp(0.49 - i as real * 0.01));
        OmittedIsFilled(items, candidates, seen, i, x);
        OmittedNext(items, candidates, i, normalized, x);
        AppendsId(normalized, x);
        normalized := normalized + [x];
      }
    }
  }

  /**
   Whatever the model returns - unknown actions, repetitions, omissions - the result ranks only
   candidates, misses no candidate's identity, and descends in score; when the candidates'
   identities differ it ranks exactly the candidates, each once. An action that was returned has the
   score of its first mention, any other the score of its place among the candidates; equal scores
   stand in the order in which the model, and after it the candidates, name them.
   */
  method NormalizeRanked(items: seq<Item>, candidates: seq<Action>) returns (ranked: seq<Scored>)
    ensures Descending(ranked) && forall a: Action :: Ranks(ranked, a) ==> a in candidates
    ensures AllScored(items, candidates, ranked)
    ensures forall i :: 0 <= i < |candidates| ==> HasId(ranked, candidates[i].id)
    ensures DistinctActions(candidates) ==>
              && DistinctScored(ranked) && (forall a: Action :: Ranks(ranked, a) <==> a in candidates)
              && TiesInMentionOrder(items, candidates, ranked)
  {
    var returned, seen := TakeReturned(items, candidates);
    var normalized := AddOmitted(items, returned, seen, candidates);
    ranked := SortDescending(normalized);
    SortedMembers(normalized, ranked);
    RanksAll(candidates, normalized, ranked);
    if DistinctActions(candidates) {
      StableKeepsTies(items, candidates, normalized, ranked);
    }
  }

  lemma SortedMembers(xs: seq<Scored>, ys: seq<Scored>)
    requires multiset(ys) == multiset(xs)
    ensures forall y :: y in ys ==> y in xs
  {
    forall y | y in ys ensures y in xs {
      assert y in multiset(ys);
    }
  }

  /** Ranking the same items ranks every candidate's identity, and exactly the candidates when these differ. */
  lemma RanksAll(candidates: seq<Action>, xs: seq<Scored>, ys: seq<Scored>)
    requires Known(xs, candidates) && forall a: Action :: Ranks(ys, a) <==> Ranks(xs, a)
    requires forall i :: 0 <= i < |candidates| ==> HasId(xs, candidates[i].id)
    ensures forall a: Action :: Ranks(ys, a) ==> a in candidates
    ensures forall i :: 0 <= i < |candidates| ==> HasId(ys, candidates[i].id)
    ensures DistinctActions(candidates) ==> forall a: Action :: Ranks(ys, a) <==> a in candidates
  {
    forall m | 0 <= m < |candidates|
      ensures HasId(ys, candidates[m].id) && (DistinctActions(candidates) ==> Ranks(ys, candidates[m]))
    {
      assert HasId(xs, candidates[m].id);
      var j :| 0 <= j < |xs| && xs[j].action.id == candidates[m].id;
      assert Ranks(xs, xs[j].action);
    }
  }

  lemma StableKeepsTies(items: seq<Item>, candidates: seq<Action>, xs: seq<Scored>, ys: seq<Scored>)
    requires InMentionOrder(items, candidates, xs) && StableIn(xs, ys) && forall y :: y in ys ==> y in xs
    ensures TiesInMentionOrder(items, candidates, ys)
  {
    forall i, j | 0 <= i < j < |ys| && ys[i].score == ys[j].score
      ensures MentionedBefore(items, candidates, ys[i], ys[j])
    {
      assert ys[i] in xs && ys[j] in xs;
      var p, q :| 0 <= p < |xs| && 0 <= q < |xs| && ys[i] == xs[p] && ys[j] == xs[q];
      assert TiedPair(xs, ys, i, j, p, q);
    }
  }

  predicate HasFingerprint(actions: seq<Action>, f: nat) {
    exists j :: 0 <= j < |actions| && actions[j].fingerprint == f
  }

  lemma FingerprintAppend(actions: seq<Action>, a: Action, f: nat)
    ensures HasFingerprint(actions + [a], f) <==> HasFingerprint(actions, f) || a.fingerprint == f
  {
    if HasFingerprint(actions, f) {
      var j :| 0 <= j < |actions| && actions[j].fingerprint == f;
      assert (actions + [a])[j].fingerprint == f;
    }
    if a.fingerprint == f {
      assert (actions + [a])[|actions|].fingerprint == f;
    }
  }

  /** The k-th action is the first of its fingerprint. */
  predicate FirstAt(actions: seq<Action>, k: nat, a: Action) {
    k < |actions| && actions[k] == a && forall j :: 0 <= j < k ==> actions[j].fingerprint != a.fingerprint
  }

  predicate FirstBefore(actions: seq<Action>, n: nat, a: Action) {
    exists k :: 0 <= k < n && FirstAt(actions, k, a)
  }

  predicate Precedes(actions: seq<Action>, a: Action, b: Action) {
    exists j, k :: 0 <= j < k < |actions| && FirstAt(actions, j, a) && FirstAt(actions, k, b)
  }

  predicate FirstsUpTo(actions: seq<Action>, n: nat, result: seq<Action>) {
    (forall a :: a in result ==> FirstBefore(actions, n, a)) && FirstsInOrder(actions, result)
  }

  /** The result lists the first actions of the fingerprints, in the order of the actions. */
  predicate FirstsInOrder(actions: seq<Action>, result: seq<Action>) {
    forall p, q :: 0 <= p < q < |result| ==> Precedes(actions, result[p], result[q])
  }

  lemma FirstsLater(actions: seq<Action>, n: nat, result: seq<Action>)
    requires FirstsUpTo(actions, n, result)
    ensures FirstsUpTo(actions, n + 1, result)
  {
    forall a | a in result ensures FirstBefore(actions, n + 1, a) {
      assert FirstBefore(actions, n, a);
    }
  }

  lemma FirstIsFirst(actions: seq<Action>, n: nat, seen: set<nat>)
    requires n < |actions| && actions[n].fingerprint !in seen
    requires forall m :: 0 <= m < n ==> actions[m].fingerprint in seen
    ensures FirstAt(actions, n, actions[n])
  {
  }

  lemma FirstNext(actions: seq<Action>, n: nat, seen: set<nat>, result: seq<Action>)
    requires n < |actions| && FirstsUpTo(actions, n, result) && actions[n].fingerprint !in seen
    requires forall m :: 0 <= m < n ==> actions[m].fingerprint in seen
    ensures FirstsUpTo(actions, n + 1, result + [actions[n]])
  {
    var ys := result + [actions[n]];
    FirstIsFirst(actions, n, seen);
    FirstsLater(actions, n, result);
    forall p, q | 0 <= p < q < |ys| ensures Precedes(actions, ys[p], ys[q]) {
      assert ys[p] == result[p];
      if q == |result| {
        assert FirstBefore(actions, n, result[p]);
        var j :| 0 <= j < n && FirstAt(actions, j, result[p]);
      } else {
        assert ys[q] == result[q];
      }
    }
  }

  lemma FirstsAreDistinct(actions: seq<Action>, result: seq<Action>)
    requires FirstsUpTo(actions, |actions|, result)
    ensures forall i, j :: 0 <= i < j < |result| ==> result[i].fingerprint != result[j].fingerprint
    ensures forall i :: 0 <= i < |result| ==> result[i] in actions
  {
    forall i, j | 0 <= i < j < |result| ensures result[i].fingerprint != result[j].fingerprint {
      assert Precedes(actions, result[i], result[j]);
    }
    forall i | 0 <= i < |result| ensures result[i] in actions {
      assert FirstBefore(actions, |actions|, result[i]);
    }
  }

  /** `_deduplicate_actions`: the first action of every fingerprint, in order. */
  method Deduplicate(actions: seq<Action>) returns (result: seq<Action>)
    ensures forall i, j :: 0 <= i < j < |result| ==> result[i].fingerprint != result[j].fingerprint
    ensures forall i :: 0 <= i < |result| ==> result[i] in actions
    ensures forall i :: 0 <= i < |actions| ==> HasFingerprint(result, actions[i].fingerprint)
    ensures FirstsInOrder(actions, result)
  {
    result := [];
    var seen: set<nat> := {};
    for i := 0 to |actions|
      invariant FirstsUpTo(actions, i, result)
      invariant forall f :: f in seen <==> HasFingerprint(result, f)
      invariant forall m :: 0 <= m < i ==> actions[m].fingerprint in seen
    {
      var f := actions[i].fingerprint;
      if f !in seen {
        forall g ensures HasFingerprint(result + [actions[i]], g) <==> HasFingerprint(result, g) || g == f {
          FingerprintAppend(result, actions[i], g);
        }
        FirstNext(actions, i, seen, result);
        seen, result := seen + {f}, result + [actions[i]];
      } else {
        FirstsLater(actions, i, result);
      }
    }
    FirstsAreDistinct(actions, result);
  }
}
