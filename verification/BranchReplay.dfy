/**
 One branch of the search: a fresh environment is reset, the branch's actions are replayed,
 and one candidate action is tried. Rewards of a replayed prefix must not be counted again.
 */
module BranchReplay {
  import opened Prelude

  /** A search node with the public history that led to it. */
  datatype Branch = Branch(actions: seq<nat>, depth: nat, reward: real, success: bool, terminated: bool,
                           cost: real, novelty: real, observations: seq<nat>, rewards: seq<real>, ranking: real)

  /** What the environment answers to the k-th step of this attempt, prefix steps first. */
  datatype Reply = Raises | Reply(observation: nat, reward: real, success: bool, done: bool, terminated: bool)

  /** `starts` is false when creating or resetting the environment raises or is cancelled. */
  datatype Script = Script(starts: bool, initial: nat, reply: nat -> Reply)

  datatype Outcome = Failed | Dropped | Ran(child: Branch)

  /** The stored observations line up with the actions, so the replay can be checked against them. */
  predicate Comparable(s: Branch) {
    s.actions != [] && |s.observations| == |s.actions| + 1
  }

  function PrefixSuccess(s: Branch, share: real, ranking: real, reward: real, rewards: seq<real>,
                         observations: seq<nat>): Branch {
    Branch(s.actions, s.depth, reward, true, true, s.cost + share, 0.0, observations, rewards, ranking)
  }

  function Extended(s: Branch, action: nat, share: real, ranking: real, reward: real, rewards: seq<real>,
                    observations: seq<nat>, r: Reply): Branch
    requires r.Reply?
  {
    Branch(s.actions + [action], s.depth + 1, reward + r.reward, r.success, r.terminated || r.done,
           s.cost + share, 0.0, observations + [r.observation], rewards + [r.reward], ranking)
  }

  /** The attempt from its k-th prefix action on, with the sums accumulated so far. */
  function Replay(s: Branch, action: nat, share: real, ranking: real, script: Script, k: nat,
                  reward: real, rewards: seq<real>, observations: seq<nat>): Outcome
    requires k <= |s.actions|
    decreases |s.actions| - k
  {
    var r := script.reply(k);
    if r.Raises? then Failed
    else if k == |s.actions| then Ran(Extended(s, action, share, ranking, reward, rewards, observations, r))
    else if Comparable(s) && s.observations[k + 1] != r.observation then Dropped
    else
      var seen := observations + [r.observation];
      var total := if Comparable(s) then reward else reward + r.reward;
      var list := if Comparable(s) then rewards else rewards + [r.reward];
      if r.success then Ran(PrefixSuccess(s, share, ranking, total, list, seen))
      else if r.done then Dropped
      else Replay(s, action, share, ranking, script, k + 1, total, list, seen)
  }

  function Execute(s: Branch, action: nat, share: real, ranking: real, script: Script): Outcome {
    if !script.starts then Failed
    else if Comparable(s) && s.observations[0] != script.initial then Dropped
    else
      Replay(s, action, share, ranking, script, 0, if Comparable(s) then s.reward else 0.0,
             if Comparable(s) then s.rewards else [], [script.initial])
  }

  method ExecuteCandidate(s: Branch, action: nat, share: real, ranking: real, script: Script) returns (o: Outcome)
    ensures o == Execute(s, action, share, ranking, script)
    ensures Answers(s, action, share, ranking, script, o)
  {
    ExecuteAnswers(s, action, share, ranking, script);
    if !script.starts {
      return Failed;
    }
    var observations := [script.initial];
    var comparable := s.actions != [] && |s.observations| == |s.actions| + 1;
    if comparable && s.observations[0] != script.initial {
      return Dropped;
    }
    var reward := if comparable then s.reward else 0.0;
    var rewards := if comparable then s.rewards else [];
    for k := 0 to |s.actions|
      invariant Execute(s, action, share, ranking, script) ==
                Replay(s, action, share, ranking, script, k, reward, rewards, observations)
    {
      var r := script.reply(k);
      if r.Raises? {
        return Failed;
      }
      observations := observations + [r.observation];
      if comparable {
        if s.observations[k + 1] != r.observation {
          return Dropped;
        }
      } else {
        reward := reward + r.reward;
        rewards := rewards + [r.reward];
      }
      if r.success {
        return Ran(PrefixSuccess(s, share, ranking, reward, rewards, observations));
      }
      if r.done {
        return Dropped;
      }
    }
    var r := script.reply(|s.actions|);
    if r.Raises? {
      return Failed;
    }
    o := Ran(Extended(s, action, share, ranking, reward, rewards, observations, r));
  }

  // ---------------------------------------------------------------- rewards are counted once

  /** A stored branch: one reward per action, one observation more, and the rewards add up. */
  predicate Stored(s: Branch) {
    s.reward == Sum(s.rewards) && |s.rewards| == |s.actions| && |s.observations| == |s.actions| + 1
    && s.depth == |s.actions|
  }

  /** The root may carry the actions of a source episode, but no history of them yet. */
  predicate Seeded(s: Branch) {
    s.reward == 0.0 && s.rewards == [] && |s.observations| == 1 && s.depth == |s.actions|
  }

  predicate Expandable(s: Branch) {
    Stored(s) || Seeded(s)
  }

  predicate FullHistory(s: Branch, k: nat, rewards: seq<real>, observations: seq<nat>) {
    && |observations| == k + 1
    && (if Comparable(s) then rewards == s.rewards else |rewards| == k)
  }

  lemma {:induction false} ReplayCounts(s: Branch, action: nat, share: real, ranking: real, script: Script, k: nat,
                                       reward: real, rewards: seq<real>, observations: seq<nat>)
    requires Expandable(s) && k <= |s.actions| && FullHistory(s, k, rewards, observations) && reward == Sum(rewards)
    ensures
      var o := Replay(s, action, share, ranking, script, k, reward, rewards, observations);
      o.Ran? ==> ChildOk(s, action, o.child)
    decreases |s.actions| - k
  {
    var r := script.reply(k);
    if !r.Raises? {
      SumAppend(rewards, r.reward);
      if k < |s.actions| && !(Comparable(s) && s.observations[k + 1] != r.observation) && !r.success && !r.done {
        ReplayCounts(s, action, share, ranking, script, k + 1, if Comparable(s) then reward else reward + r.reward,
                     if Comparable(s) then rewards else rewards + [r.reward], observations + [r.observation]);
      }
    }
  }

  /**
   A child is its parent plus the candidate, with a full history; or its parent again, when the
   replay itself already succeeded. Either way the reward is the sum of its own list.
   */
  predicate ChildOk(s: Branch, action: nat, child: Branch) {
    && child.reward == Sum(child.rewards)
    && ((Stored(child) && child.actions == s.actions + [action] && child.depth == s.depth + 1)
        || (child.success && child.terminated && child.actions == s.actions && child.depth == s.depth))
  }

  lemma ExecuteCounts(s: Branch, action: nat, share: real, ranking: real, script: Script)
    requires Expandable(s)
    ensures
      var o := Execute(s, action, share, ranking, script);
      o.Ran? ==> ChildOk(s, action, o.child)
  {
    if script.starts && !(Comparable(s) && s.observations[0] != script.initial) {
      ReplayCounts(s, action, share, ranking, script, 0, if Comparable(s) then s.reward else 0.0,
                   if Comparable(s) then s.rewards else [], [script.initial]);
    }
  }

  /** The child's history is the parent's with one observation and one reward added. */
  predicate Continues(s: Branch, child: Branch) {
    && |child.observations| == |s.observations| + 1 && s.observations <= child.observations
    && |child.rewards| == |s.rewards| + 1 && s.rewards <= child.rewards
    && child.reward == s.reward + child.rewards[|s.rewards|]
  }

  lemma {:induction false} ReplayFaithful(s: Branch, action: nat, share: real, ranking: real, script: Script, k: nat,
                                         observations: seq<nat>)
    requires Stored(s) && s.actions != [] && k <= |s.actions| && observations == s.observations[..k + 1]
    ensures
      var o := Replay(s, action, share, ranking, script, k, s.reward, s.rewards, observations);
      o.Ran? && |o.child.actions| > |s.actions| ==> Continues(s, o.child)
    decreases |s.actions| - k
  {
    var r := script.reply(k);
    if !r.Raises? && k < |s.actions| && s.observations[k + 1] == r.observation && !r.success && !r.done {
      ReplayFaithful(s, action, share, ranking, script, k + 1, observations + [r.observation]);
    }
  }

  /**
   Expanding a stored branch keeps its history as a prefix of the child's and adds exactly one
   reward: the replayed rewards are not counted again, and a replay that observes anything else
   than the stored history yields no child.
   */
  lemma ReplayIsNotRecounted(s: Branch, action: nat, share: real, ranking: real, script: Script)
    requires Stored(s) && s.actions != []
    ensures
      var o := Execute(s, action, share, ranking, script);
      o.Ran? && |o.child.actions| > |s.actions| ==> Continues(s, o.child)
  {
    if script.starts && s.observations[0] == script.initial {
      ReplayFaithful(s, action, share, ranking, script, 0, [script.initial]);
    }
  }

  // ---------------------------------------------------------------- what the environment answered

  /** The environment started and showed what the stored history begins with, if there is one to compare. */
  predicate Begins(s: Branch, script: Script) {
    script.starts && (Comparable(s) ==> script.initial == s.observations[0])
  }

  /** The k-th replayed action was answered, and as it was the first time. */
  predicate Agrees(s: Branch, script: Script, k: nat)
    requires k < |s.actions|
  {
    && script.reply(k).Reply?
    && (Comparable(s) ==> script.reply(k).observation == s.observations[k + 1])
  }

  /** The attempt comes to its k-th step: every earlier one agreed and neither succeeded nor ended the episode. */
  predicate Reaches(s: Branch, script: Script, k: nat)
    requires k <= |s.actions|
  {
    && Begins(s, script)
    && forall j :: 0 <= j < k ==> Agrees(s, script, j) && !script.reply(j).success && !script.reply(j).done
  }

  predicate RaisesAt(s: Branch, script: Script, k: nat)
    requires k <= |s.actions|
  {
    Reaches(s, script, k) && script.reply(k).Raises?
  }

  predicate SucceedsAt(s: Branch, script: Script, k: nat)
    requires k < |s.actions|
  {
    Reaches(s, script, k) && Agrees(s, script, k) && script.reply(k).success
  }

  /** The attempt raises: at its start, or at the first step that does not agree, succeed or end before. */
  predicate AttemptRaises(s: Branch, script: Script) {
    !script.starts || exists k :: 0 <= k <= |s.actions| && RaisesAt(s, script, k)
  }

  /** The candidate itself was answered. */
  predicate Steps(s: Branch, script: Script) {
    Reaches(s, script, |s.actions|) && script.reply(|s.actions|).Reply?
  }

  /** The replay succeeds before it comes to the candidate. */
  predicate SucceedsEarly(s: Branch, script: Script) {
    exists k :: 0 <= k < |s.actions| && SucceedsAt(s, script, k)
  }

  /** The first n observations of the attempt after the initial one. */
  predicate Saw(script: Script, observations: seq<nat>, n: nat) {
    && |observations| == n + 1 && observations[0] == script.initial
    && forall j :: 0 <= j < n ==> script.reply(j).Reply? && observations[j + 1] == script.reply(j).observation
  }

  /** The rewards so far: those the parent has stored, or else the first n replies'. */
  predicate Earned(s: Branch, script: Script, rewards: seq<real>, n: nat) {
    if Comparable(s) then rewards == s.rewards
    else |rewards| == n && forall j :: 0 <= j < n ==> script.reply(j).Reply? && rewards[j] == script.reply(j).reward
  }

  /** The child of an attempt whose candidate step was answered. */
  predicate SteppedChild(s: Branch, action: nat, script: Script, child: Branch)
    requires Steps(s, script)
  {
    var n := |s.actions|;
    var last := script.reply(n);
    && child.actions == s.actions + [action] && child.depth == s.depth + 1
    && child.success == last.success
    && child.terminated == (last.terminated || last.done)
    && Saw(script, child.observations, n + 1)
    && |child.rewards| > 0 && child.rewards[|child.rewards| - 1] == last.reward
    && Earned(s, script, child.rewards[..|child.rewards| - 1], n)
  }

  /** The child of an attempt whose replay succeeded at its k-th step. */
  predicate EarlyChild(s: Branch, script: Script, k: nat, child: Branch)
    requires k < |s.actions|
  {
    && SucceedsAt(s, script, k)
    && child.actions == s.actions && child.depth == s.depth
    && child.success && child.terminated
    && Saw(script, child.observations, k + 1)
    && Earned(s, script, child.rewards, k + 1)
  }

  /** What an attempt comes to, by what the environment answers alone. */
  predicate Answers(s: Branch, action: nat, share: real, ranking: real, script: Script, o: Outcome) {
    && (o.Failed? <==> AttemptRaises(s, script))
    && (o.Ran? <==> Steps(s, script) || SucceedsEarly(s, script))
    && (o.Ran? ==>
          && (Steps(s, script) ==> SteppedChild(s, action, script, o.child))
          && (!Steps(s, script) ==> exists k :: 0 <= k < |s.actions| && EarlyChild(s, script, k, o.child))
          && o.child.cost == s.cost + share && o.child.ranking == ranking && o.child.novelty == 0.0)
  }

  /** Only one step can be where the attempt stops. */
  lemma ReachesNoFurther(s: Branch, script: Script, k: nat, m: nat)
    requires k < m <= |s.actions| && Reaches(s, script, m)
    ensures Reaches(s, script, k) && Agrees(s, script, k) && !script.reply(k).success && !script.reply(k).done
  {
  }

  /** Where the attempt stops at its k-th step. */
  lemma StopsAt(s: Branch, action: nat, share: real, ranking: real, script: Script, k: nat,
                reward: real, rewards: seq<real>, observations: seq<nat>)
    requires k <= |s.actions| && Reaches(s, script, k)
    requires Saw(script, observations, k) && Earned(s, script, rewards, k)
    requires k < |s.actions| ==> !(Agrees(s, script, k) && !script.reply(k).success && !script.reply(k).done)
    ensures Answers(s, action, share, ranking, script,
                    Replay(s, action, share, ranking, script, k, reward, rewards, observations))
  {
    var r := script.reply(k);
    forall m | 0 <= m <= |s.actions| && m != k
      ensures !RaisesAt(s, script, m) && (m < |s.actions| ==> !SucceedsAt(s, script, m))
    {
      if m < k {
        ReachesNoFurther(s, script, m, k);
      }
    }
    assert Steps(s, script) ==> k == |s.actions|;
    if k == |s.actions| && r.Reply? {
      assert (rewards + [r.reward])[..|rewards|] == rewards;
    } else if r.Reply? && Agrees(s, script, k) && r.success {
      assert SucceedsAt(s, script, k);
      var o := Replay(s, action, share, ranking, script, k, reward, rewards, observations);
      assert EarlyChild(s, script, k, o.child);
    } else if r.Raises? {
      assert RaisesAt(s, script, k);
    }
  }

  lemma {:induction false} ReplayAnswers(s: Branch, action: nat, share: real, ranking: real, script: Script, k: nat,
                                        reward: real, rewards: seq<real>, observations: seq<nat>)
    requires k <= |s.actions| && Reaches(s, script, k)
    requires Saw(script, observations, k) && Earned(s, script, rewards, k)
    ensures Answers(s, action, share, ranking, script,
                    Replay(s, action, share, ranking, script, k, reward, rewards, observations))
    decreases |s.actions| - k
  {
    var r := script.reply(k);
    if k < |s.actions| && Agrees(s, script, k) && !r.success && !r.done {
      ReplayAnswers(s, action, share, ranking, script, k + 1, if Comparable(s) then reward else reward + r.reward,
                    if Comparable(s) then rewards else rewards + [r.reward], observations + [r.observation]);
    } else {
      StopsAt(s, action, share, ranking, script, k, reward, rewards, observations);
    }
  }

  /**
   The outcome in terms of the environment's answers: a failure exactly when the start or the first decisive step
   raises; a child with the candidate exactly when the candidate was answered, with that answer's success, end,
   reward and observation; the parent's own actions exactly when the replay itself succeeds.
   */
  lemma ExecuteAnswers(s: Branch, action: nat, share: real, ranking: real, script: Script)
    ensures Answers(s, action, share, ranking, script, Execute(s, action, share, ranking, script))
  {
    if Begins(s, script) {
      ReplayAnswers(s, action, share, ranking, script, 0, if Comparable(s) then s.reward else 0.0,
                    if Comparable(s) then s.rewards else [], [script.initial]);
    } else {
      assert forall k :: 0 <= k <= |s.actions| ==> !Reaches(s, script, k);
    }
  }
}
