/** The step indices an episode's completed step commands carry, in creation order. */
module CompletedSteps {
  import opened Prelude
  import opened SessionStore

  predicate FinishedStep(c: Command) {
    c.kind == Step && c.status == Finished
  }

  predicate StepOf(c: Command, episode: nat) {
    FinishedStep(c) && c.payload.episode == Some(episode)
  }

  function Indices(cs: seq<Command>, episode: nat): seq<nat> {
    if cs == [] then []
    else
      var n := |cs| - 1;
      Indices(cs[..n], episode) + (if StepOf(cs[n], episode) then [cs[n].payload.expected] else [])
  }

  /** 1, 2, ..., in order and without a gap. */
  predicate Counts(xs: seq<nat>) {
    forall i :: 0 <= i < |xs| ==> xs[i] == i + 1
  }

  /** No command created after `c` is a completed step. */
  predicate NoneAfter(cs: seq<Command>, c: nat) {
    forall b :: c < b < |cs| ==> !FinishedStep(cs[b])
  }

  predicate SameSteps(cs: seq<Command>, ds: seq<Command>) {
    |cs| == |ds| &&
    forall i :: 0 <= i < |cs| ==> cs[i].payload == ds[i].payload && (FinishedStep(cs[i]) <==> FinishedStep(ds[i]))
  }

  lemma {:induction false} IndicesSame(cs: seq<Command>, ds: seq<Command>, episode: nat)
    requires SameSteps(cs, ds)
    ensures Indices(cs, episode) == Indices(ds, episode)
  {
    if cs != [] {
      var n := |cs| - 1;
      IndicesSame(cs[..n], ds[..n], episode);
      assert cs[n].payload == ds[n].payload;
    }
  }

  lemma IndicesAppend(cs: seq<Command>, c: Command, episode: nat)
    requires !FinishedStep(c)
    ensures Indices(cs + [c], episode) == Indices(cs, episode)
  {
    assert (cs + [c])[..|cs|] == cs;
  }

  lemma {:induction false} IndicesFinish(cs: seq<Command>, c: nat, episode: nat)
    requires c < |cs| && cs[c].kind == Step && cs[c].status != Finished && NoneAfter(cs, c)
    ensures Indices(SetStatus(cs, c, Finished), episode) ==
            Indices(cs, episode) + (if cs[c].payload.episode == Some(episode) then [cs[c].payload.expected] else [])
  {
    var n := |cs| - 1;
    var ds := SetStatus(cs, c, Finished);
    if c == n {
      assert ds[..n] == cs[..n];
    } else {
      assert ds[..n] == SetStatus(cs[..n], c, Finished);
      assert !FinishedStep(cs[n]);
      IndicesFinish(cs[..n], c, episode);
    }
  }

  lemma {:induction false} IndicesEmpty(cs: seq<Command>, episode: nat)
    requires forall i :: 0 <= i < |cs| ==> !StepOf(cs[i], episode)
    ensures Indices(cs, episode) == []
  {
    if cs != [] {
      IndicesEmpty(cs[..|cs| - 1], episode);
    }
  }
}
