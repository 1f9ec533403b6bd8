/** Logs whose entries carry their own sequence number, and the cursors that read them. */
module NumberedLogs {
  datatype Numbered<+T> = Numbered(sequence: nat, item: T)

  ghost predicate IsNumbered<T>(log: seq<Numbered<T>>) {
    forall i :: 0 <= i < |log| ==> log[i].sequence == i + 1
  }

  /** The entries a reader that has seen up to `after` is sent. */
  function Newer<T>(log: seq<Numbered<T>>, after: nat): seq<Numbered<T>> {
    if log == [] then
      []
    else
      var rest := Newer(log[..|log| - 1], after);
      var last := log[|log| - 1];
      if last.sequence > after then rest + [last] else rest
  }

  function MaxSequence<T>(log: seq<Numbered<T>>, least: nat): nat {
    if log == [] then
      least
    else
      var rest := MaxSequence(log[..|log| - 1], least);
      if log[|log| - 1].sequence > rest then log[|log| - 1].sequence else rest
  }

  /** A reader keeps its cursor when it is sent nothing. */
  function Advance<T>(cursor: nat, batch: seq<Numbered<T>>): nat {
    if batch == [] then cursor else MaxSequence(batch, 0)
  }

  lemma PrefixNumbered<T>(log: seq<Numbered<T>>, n: nat)
    requires IsNumbered(log) && n <= |log|
    ensures IsNumbered(log[..n])
  {
    forall i | 0 <= i < n
      ensures log[..n][i].sequence == i + 1
    {
      assert log[..n][i] == log[i];
    }
  }

  lemma SuffixGrows<T>(log: seq<T>, after: nat)
    requires log != []
    ensures var n := |log| - 1; after <= n ==> log[after..] == log[..n][after..] + [log[n]]
  {
    var n := |log| - 1;
    if after <= n {
      var short := log[..n][after..] + [log[n]];
      forall i | 0 <= i < |short|
        ensures log[after..][i] == short[i]
      {
      }
    }
  }

  /** On a numbered log the cursor names a position: what is sent is exactly what lies beyond it. */
  lemma {:induction false} NewerIsSuffix<T>(log: seq<Numbered<T>>, after: nat)
    requires IsNumbered(log)
    ensures Newer(log, after) == if after <= |log| then log[after..] else []
  {
    if log != [] {
      var n := |log| - 1;
      assert log[n].sequence == n + 1;
      PrefixNumbered(log, n);
      NewerIsSuffix(log[..n], after);
      SuffixGrows(log, after);
    }
  }

  lemma {:induction false} MaxOfSuffix<T>(log: seq<Numbered<T>>, after: nat)
    requires IsNumbered(log) && after < |log|
    ensures MaxSequence(log[after..], 0) == |log|
  {
    var batch, n := log[after..], |log| - 1;
    assert batch[..|batch| - 1] == log[..n][after..];
    assert batch[|batch| - 1] == log[n] && log[n].sequence == n + 1;
    PrefixNumbered(log, n);
    if after < n {
      MaxOfSuffix(log[..n], after);
    } else {
      assert log[..n][after..] == [];
    }
  }

  /** After reading, the cursor is at the end of the log, unless it was already beyond it. */
  lemma AdvanceToEnd<T>(log: seq<Numbered<T>>, cursor: nat)
    requires IsNumbered(log)
    ensures Advance(cursor, Newer(log, cursor)) == if cursor < |log| then |log| else cursor
  {
    NewerIsSuffix(log, cursor);
    if cursor < |log| {
      MaxOfSuffix(log, cursor);
    }
  }

  /** What a reader that started at `base` has been given once its cursor stands at `cursor`. */
  ghost predicate ReadFrom<T>(log: seq<Numbered<T>>, base: nat, cursor: nat, seen: seq<Numbered<T>>) {
    && base <= cursor
    && (cursor > base ==> cursor <= |log|)
    && seen == (if cursor == base then [] else log[base..cursor])
  }

  lemma SlicesJoin<T>(log: seq<T>, i: nat, j: nat)
    requires i <= j <= |log|
    ensures log[i..j] + log[j..] == log[i..]
  {
  }

  /** One more read, from the cursor to the end of the log. */
  lemma ReadKeeps<T>(log: seq<Numbered<T>>, base: nat, cursor: nat, seen: seq<Numbered<T>>)
    requires IsNumbered(log) && ReadFrom(log, base, cursor, seen)
    ensures ReadFrom(log, base, Advance(cursor, Newer(log, cursor)), seen + Newer(log, cursor))
  {
    NewerIsSuffix(log, cursor);
    AdvanceToEnd(log, cursor);
    if cursor < |log| {
      SlicesJoin(log, base, cursor);
      assert log[base..|log|] == log[base..];
      assert log[base..base] == [];
    }
  }

  /** After such a read the reader has the whole log exactly when it started at its beginning, or the log is empty. */
  lemma ReadIsAllIff<T>(log: seq<Numbered<T>>, base: nat, cursor: nat, seen: seq<Numbered<T>>)
    requires IsNumbered(log) && ReadFrom(log, base, cursor, seen)
    ensures seen + Newer(log, cursor) == log <==> base == 0 || log == []
  {
    ReadKeeps(log, base, cursor, seen);
    AdvanceToEnd(log, cursor);
    var now, after := seen + Newer(log, cursor), Advance(cursor, Newer(log, cursor));
    if base == 0 {
      assert log[0..|log|] == log;
    } else if after > base {
      assert |now| == |log| - base;
    }
  }

  /** A log that grows keeps what was read of it. */
  lemma GrownLogKeeps<T>(log: seq<Numbered<T>>, log': seq<Numbered<T>>, base: nat, cursor: nat, seen: seq<Numbered<T>>)
    requires log <= log' && ReadFrom(log, base, cursor, seen)
    ensures ReadFrom(log', base, cursor, seen)
  {
    if cursor > base {
      assert log'[base..cursor] == log[base..cursor];
    }
  }
}
