/** The attempt numbers of a search, from which the seeds follow: when they are distinct and when they repeat. */
module BeamAttempts {
  import opened Prelude
  import opened BranchReplay
  import opened BeamSpec
  import opened BeamTheorems

  predicate Increasing(xs: seq<nat>) {
    forall i, j :: 0 <= i < j < |xs| ==> xs[i] < xs[j]
  }

  predicate Distinct(xs: seq<nat>) {
    forall i, j :: 0 <= i < j < |xs| ==> xs[i] != xs[j]
  }

  predicate CountsUp(xs: seq<nat>) {
    forall i :: 0 <= i < |xs| ==> xs[i] == i + 1
  }

  // ---------------------------------------------------------------- one round

  lemma {:induction false} AttemptsBounds(active: nat -> bool, offset: nat, n: nat)
    ensures |Attempts(active, offset, n)| <= n
    ensures forall i :: 0 <= i < |Attempts(active, offset, n)| ==> offset < Attempts(active, offset, n)[i] <= offset + n
    ensures Increasing(Attempts(active, offset, n))
  {
    if n > 0 {
      AttemptsBounds(active, offset, n - 1);
    }
  }

  lemma {:induction false} AttemptsAre(active: nat -> bool, offset: nat, n: nat, x: nat)
    ensures x in Attempts(active, offset, n) <==> offset < x <= offset + n && active(x - offset - 1)
  {
    if n > 0 {
      AttemptsAre(active, offset, n - 1, x);
    }
  }

  // ---------------------------------------------------------------- all rounds

  /** How many attempts were started before the k-th round. */
  function Offset(rounds: seq<Started>, k: nat): nat
    requires k <= |rounds|
  {
    |AllAttempts(rounds[..k])|
  }

  /** Candidate i of round j is started, and so is the candidate of the later round k that falls on its number. */
  predicate Clash(rounds: seq<Started>, j: nat, k: nat, i: nat) {
    && j < k < |rounds|
    && i < rounds[j].count && rounds[j].active(i)
    && var d := Offset(rounds, k) - Offset(rounds, j);
       0 <= i - d < rounds[k].count && rounds[k].active(i - d)
  }

  ghost predicate Clashes(rounds: seq<Started>) {
    exists j, k, i :: Clash(rounds, j, k, i)
  }

  predicate Numbers(rounds: seq<Started>, j: nat, x: nat)
    requires j < |rounds|
  {
    var offset := Offset(rounds, j);
    offset < x <= offset + rounds[j].count && rounds[j].active(x - offset - 1)
  }

  lemma OffsetPrefix(rounds: seq<Started>, n: nat, k: nat)
    requires k <= n <= |rounds|
    ensures Offset(rounds[..n], k) == Offset(rounds, k)
  {
    assert rounds[..n][..k] == rounds[..k];
  }

  lemma AllSplit(rounds: seq<Started>)
    requires rounds != []
    ensures
      var n := |rounds| - 1;
      AllAttempts(rounds) == AllAttempts(rounds[..n]) + Attempts(rounds[n].active, Offset(rounds, n), rounds[n].count)
  {
  }

  lemma {:induction false} AllAre(rounds: seq<Started>, x: nat)
    ensures x in AllAttempts(rounds) <==> exists j :: 0 <= j < |rounds| && Numbers(rounds, j, x)
  {
    if rounds != [] {
      var n := |rounds| - 1;
      AllSplit(rounds);
      AllAre(rounds[..n], x);
      AttemptsAre(rounds[n].active, Offset(rounds, n), rounds[n].count, x);
      assert Numbers(rounds, n, x) <==> x in Attempts(rounds[n].active, Offset(rounds, n), rounds[n].count);
      forall j: nat | j < n ensures Numbers(rounds[..n], j, x) == Numbers(rounds, j, x) {
        OffsetPrefix(rounds, n, j);
      }
      if j :| 0 <= j < n && Numbers(rounds[..n], j, x) {
        assert Numbers(rounds, j, x);
      }
      if j :| 0 <= j < |rounds| && Numbers(rounds, j, x) {
        assert j == n || Numbers(rounds[..n], j, x);
      }
    }
  }

  lemma DistinctJoin(a: seq<nat>, b: seq<nat>)
    ensures Distinct(a + b) <==> Distinct(a) && Distinct(b) && forall x :: x in a ==> x !in b
  {
    var c := a + b;
    if Distinct(c) {
      forall i, j | 0 <= i < j < |a| ensures a[i] != a[j] {
        assert c[i] == a[i] && c[j] == a[j];
      }
      forall i, j | 0 <= i < j < |b| ensures b[i] != b[j] {
        assert c[|a| + i] == b[i] && c[|a| + j] == b[j];
      }
      forall x | x in a ensures x !in b {
        var i :| 0 <= i < |a| && a[i] == x;
        forall j | 0 <= j < |b| ensures b[j] != x {
          assert c[i] == x && c[|a| + j] == b[j];
        }
      }
    }
    if Distinct(a) && Distinct(b) && forall x :: x in a ==> x !in b {
      forall i, j | 0 <= i < j < |c| ensures c[i] != c[j] {
        if j < |a| {
          assert c[i] == a[i] && c[j] == a[j];
        } else if i < |a| {
          assert a[i] in a && b[j - |a|] in b;
        } else {
          assert c[i] == b[i - |a|] && c[j] == b[j - |a|];
        }
      }
    }
  }

  function LastAttempts(rounds: seq<Started>): seq<nat>
    requires rounds != []
  {
    var n := |rounds| - 1;
    Attempts(rounds[n].active, Offset(rounds, n), rounds[n].count)
  }

  lemma ClashRepeats(rounds: seq<Started>, j: nat, i: nat)
    requires rounds != [] && Clash(rounds, j, |rounds| - 1, i)
    ensures
      var x := Offset(rounds, j) + i + 1;
      x in AllAttempts(rounds[..|rounds| - 1]) && x in LastAttempts(rounds)
  {
    var n := |rounds| - 1;
    var x := Offset(rounds, j) + i + 1;
    OffsetPrefix(rounds, n, j);
    AttemptsAre(rounds[n].active, Offset(rounds, n), rounds[n].count, x);
    AllAre(rounds[..n], x);
    assert Numbers(rounds[..n], j, x);
  }

  lemma RepeatClashes(rounds: seq<Started>, x: nat) returns (j: nat, i: nat)
    requires rounds != [] && x in AllAttempts(rounds[..|rounds| - 1]) && x in LastAttempts(rounds)
    ensures Clash(rounds, j, |rounds| - 1, i)
  {
    var n := |rounds| - 1;
    AllAre(rounds[..n], x);
    AttemptsAre(rounds[n].active, Offset(rounds, n), rounds[n].count, x);
    j :| 0 <= j < n && Numbers(rounds[..n], j, x);
    OffsetPrefix(rounds, n, j);
    i := x - Offset(rounds, j) - 1;
  }

  /** The last round clashes with an earlier one exactly when it repeats one of its numbers. */
  lemma LastClashes(rounds: seq<Started>, n: nat)
    requires |rounds| == n + 1
    ensures (exists j, i :: Clash(rounds, j, n, i))
            <==> exists x :: x in AllAttempts(rounds[..n]) && x in LastAttempts(rounds)
  {
    if j, i :| Clash(rounds, j, n, i) {
      ClashRepeats(rounds, j, i);
    }
    if x :| x in AllAttempts(rounds[..n]) && x in LastAttempts(rounds) {
      var j, i := RepeatClashes(rounds, x);
    }
  }

  lemma ClashesSplit(rounds: seq<Started>)
    requires rounds != []
    ensures
      var n := |rounds| - 1;
      Clashes(rounds) <==> Clashes(rounds[..n]) || exists j, i :: Clash(rounds, j, n, i)
  {
    var n := |rounds| - 1;
    forall j: nat, k: nat, i: nat | j < k < n ensures Clash(rounds[..n], j, k, i) == Clash(rounds, j, k, i) {
      OffsetPrefix(rounds, n, j);
      OffsetPrefix(rounds, n, k);
    }
    if j, k, i :| Clash(rounds[..n], j, k, i) {
      assert Clash(rounds, j, k, i);
    }
    if j, k, i :| Clash(rounds, j, k, i) {
      assert k == n || Clash(rounds[..n], j, k, i);
    }
  }

  /**
   Over any number of rounds all attempt numbers, and with them all seeds, are distinct exactly when no
   started candidate of a round falls on the number of a candidate started in an earlier round.
   */
  lemma {:induction false} DistinctIff(rounds: seq<Started>)
    ensures Distinct(AllAttempts(rounds)) <==> !Clashes(rounds)
  {
    if rounds != [] {
      var n := |rounds| - 1;
      var last := LastAttempts(rounds);
      DistinctIff(rounds[..n]);
      AllSplit(rounds);
      DistinctJoin(AllAttempts(rounds[..n]), last);
      AttemptsBounds(rounds[n].active, Offset(rounds, n), rounds[n].count);
      LastClashes(rounds, n);
      ClashesSplit(rounds);
    }
  }

  // ---------------------------------------------------------------- what is enough

  /** Within the round no candidate runs after one that was held back. */
  predicate HeldBackLast(r: Started) {
    forall i, j :: 0 <= i < j < r.count && r.active(j) ==> r.active(i)
  }

  lemma {:induction false} HeldBackLastCounts(active: nat -> bool, offset: nat, n: nat)
    requires forall i, j :: 0 <= i < j < n && active(j) ==> active(i)
    ensures
      var xs := Attempts(active, offset, n);
      (forall i :: 0 <= i < |xs| ==> xs[i] == offset + i + 1) && (n > 0 && active(n - 1) ==> |xs| == n)
  {
    if n > 0 {
      HeldBackLastCounts(active, offset, n - 1);
      if active(n - 1) && n > 1 {
        assert active(n - 2);
      }
    }
  }

  /** When the candidates that are held back come last in every round, the attempts are numbered 1, 2, and so on. */
  lemma {:induction false} HeldBackLastIsEnough(rounds: seq<Started>)
    requires forall k :: 0 <= k < |rounds| ==> HeldBackLast(rounds[k])
    ensures CountsUp(AllAttempts(rounds)) && Distinct(AllAttempts(rounds)) && !Clashes(rounds)
  {
    if rounds != [] {
      var n := |rounds| - 1;
      HeldBackLastIsEnough(rounds[..n]);
      assert HeldBackLast(rounds[n]);
      HeldBackLastCounts(rounds[n].active, |AllAttempts(rounds[..n])|, rounds[n].count);
    }
    DistinctIff(rounds);
  }

  /** Cancellation persists: once a candidate was held back, every later tick is cancelled. */
  ghost predicate Persistent(oracle: nat -> Round) {
    forall k, i, j :: 0 <= i < |oracle(k).ranked| && k < j && !oracle(k).active(i) ==> oracle(j).cancelled
  }

  /** Under persistent cancellation only the last expansion can have held a candidate back. */
  lemma PersistentRounds(oracle: nat -> Round, xs: seq<Expansion>, tick: nat, k: nat)
    requires Persistent(oracle) && Ticked(oracle, xs, tick) && k + 1 < |xs|
    ensures HeldBackLast(StartedOf(oracle, xs)[k])
  {
    forall i | 0 <= i < xs[k].count ensures oracle(xs[k].tick).active(i) {
      assert xs[k].tick < xs[k + 1].tick && !oracle(xs[k + 1].tick).cancelled;
    }
  }

  lemma PersistentIsEnough(oracle: nat -> Round, xs: seq<Expansion>, tick: nat)
    requires Persistent(oracle) && Ticked(oracle, xs, tick)
    ensures Increasing(AllAttempts(StartedOf(oracle, xs))) && Distinct(AllAttempts(StartedOf(oracle, xs)))
  {
    var rounds := StartedOf(oracle, xs);
    if rounds != [] {
      var n := |rounds| - 1;
      forall k | 0 <= k < n ensures HeldBackLast(rounds[..n][k]) {
        PersistentRounds(oracle, xs, tick, k);
      }
      HeldBackLastIsEnough(rounds[..n]);
      AllSplit(rounds);
      AttemptsBounds(rounds[n].active, Offset(rounds, n), rounds[n].count);
    }
  }
}
