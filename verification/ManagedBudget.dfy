/** Admission of episodes and generations in a managed session, and what the session can come to spend. */
module ManagedBudget {
  import opened Prelude
  import opened InferenceContracts
  import opened ManagedUsage

  datatype Plan = Plan(attacker: Attacker, profile: Option<Profile>, maxTokens: nat, maxCost: real)

  /** Episodes are numbered from one; `pending` holds while an admitted generation is being awaited. */
  datatype Managed = Managed(ledger: Ledger, episode: nat, open: bool, pending: bool, lastUsage: Option<Usage>)

  /** A generation is refused by the guard before it begins, or it runs; the fence may be lost by its end. */
  datatype Outcome =
    | Refused(fenceHeld: bool)
    | Ran(size: nat, answer: Answer, fenceHeld: bool)

  datatype Event =
    | ResetEpisode
    | Drain(records: seq<Audit>)
    | CloseEpisode
    | Admit
    | Finish(outcome: Outcome, hash: nat)

  const START := Managed(EMPTY_LEDGER, 0, false, false, None)

  ghost predicate ValidPlan(p: Plan) {
    && ValidAttacker(p.attacker)
    && p.maxCost >= 0.0
    && (p.profile.Some? ==> ValidProfile(p.profile.value))
  }

  function TargetMaximum(p: Plan): Usage {
    if p.profile.Some? then Usage(p.profile.value.maxTotalTokens, p.profile.value.maxCost) else Usage(0, 0.0)
  }

  /** The comparison made before an episode (`extra` zero) and before a generation. */
  predicate Fits(p: Plan, l: Ledger, extra: Usage) {
    && l.tokens + TargetMaximum(p).tokens + extra.tokens <= p.maxTokens
    && l.cost + TargetMaximum(p).cost + extra.cost <= p.maxCost
  }

  /** Without an inference profile a reset is not checked. */
  function ResetNext(p: Plan, s: Managed): Managed {
    if s.pending then
      s
    else if p.profile.Some? && !Fits(p, s.ledger, Usage(0, 0.0)) then
      s.(open := false)
    else
      s.(episode := s.episode + 1, open := true)
  }

  function DrainNext(p: Plan, s: Managed, records: seq<Audit>): Managed {
    if s.open && p.profile.Some? then
      s.(ledger := RecordAll(s.ledger, s.episode, records).0)
    else
      s
  }

  function AdmitNext(p: Plan, s: Managed): Managed {
    if !s.pending && Fits(p, s.ledger, Reserved(p.attacker)) then s.(pending := true) else s
  }

  /** `last_usage` after the generation: a generation that never began leaves the previous value. */
  function UsageLeft(a: Attacker, was: Option<Usage>, outcome: Outcome): Option<Usage> {
    match outcome
    case Refused(_) => was
    case Ran(size, answer, _) => UsageOf(a, size, answer)
  }

  function Billed(a: Attacker, was: Option<Usage>, outcome: Outcome): Option<Usage> {
    if outcome.fenceHeld then UsageLeft(a, was, outcome) else None
  }

  function Bill(l: Ledger, u: Option<Usage>, hash: nat): Ledger {
    if u.Some? then AddUsage(l, Invocation(None, hash, u.value.tokens, u.value.cost)).0 else l
  }

  function FinishNext(p: Plan, s: Managed, outcome: Outcome, hash: nat): Managed {
    if s.pending then
      s.(pending := false,
         lastUsage := UsageLeft(p.attacker, s.lastUsage, outcome),
         ledger := Bill(s.ledger, Billed(p.attacker, s.lastUsage, outcome), hash))
    else
      s
  }

  function Next(p: Plan, s: Managed, e: Event): Managed {
    match e
    case ResetEpisode => ResetNext(p, s)
    case Drain(records) => DrainNext(p, s, records)
    case CloseEpisode => s.(open := false)
    case Admit => AdmitNext(p, s)
    case Finish(outcome, hash) => FinishNext(p, s, outcome, hash)
  }

  function Run(p: Plan, s: Managed, events: seq<Event>): Managed
    decreases |events|
  {
    if events == [] then s else Run(p, Next(p, s, events[0]), events[1..])
  }

  ghost predicate Priced(e: Event) {
    e.Drain? ==> forall i :: 0 <= i < |e.records| ==> e.records[i].cost >= 0.0
  }

  // ----- the invariant -----

  ghost predicate RowsNamed(p: Plan, s: Managed) {
    forall row :: row in s.ledger.rows && row.key.Some? ==>
      1 <= row.key.value.episode <= s.episode && p.profile.Some?
  }

  /** What the newest episode may still be charged; negative once it has been charged too much. */
  function UnspentTokens(p: Plan, s: Managed): int {
    if s.episode == 0 then 0 else TargetMaximum(p).tokens - EpisodeTokens(s.ledger.rows, s.episode)
  }

  function UnspentCost(p: Plan, s: Managed): real {
    if s.episode == 0 then 0.0 else TargetMaximum(p).cost - EpisodeUsage(s.ledger.rows, s.episode).cost
  }

  function PendingUsage(p: Plan, s: Managed): Usage {
    if s.pending then Reserved(p.attacker) else Usage(0, 0.0)
  }

  ghost predicate Covered(p: Plan, s: Managed) {
    && s.ledger.tokens + UnspentTokens(p, s) + PendingUsage(p, s).tokens <= p.maxTokens
    && s.ledger.cost + UnspentCost(p, s) + PendingUsage(p, s).cost <= p.maxCost
  }

  ghost predicate Inv(p: Plan, s: Managed) {
    && LedgerInv(s.ledger)
    && RowsNamed(p, s)
    && Covered(p, s)
    && (s.lastUsage.Some? ==> WithinReserved(p.attacker, s.lastUsage.value))
  }

  lemma {:induction false} UnnamedIsEmpty(rows: seq<Invocation>, episode: nat)
    requires forall row :: row in rows && row.key.Some? ==> row.key.value.episode != episode
    ensures OfEpisode(rows, episode) == []
  {
    if rows != [] {
      UnnamedIsEmpty(rows[..|rows| - 1], episode);
    }
  }

  lemma ResetKeeps(p: Plan, s: Managed)
    requires ValidPlan(p) && Inv(p, s)
    ensures Inv(p, ResetNext(p, s))
  {
    var r := ResetNext(p, s);
    if r.episode != s.episode {
      UnnamedIsEmpty(s.ledger.rows, r.episode);
      if p.profile.None? && s.episode > 0 {
        UnnamedIsEmpty(s.ledger.rows, s.episode);
      }
    }
  }

  lemma {:induction false} RecordNames(l: Ledger, episode: nat, records: seq<Audit>)
    ensures forall row :: row in RecordAll(l, episode, records).0.rows ==>
              row in l.rows || (row.key.Some? && row.key.value.episode == episode)
    decreases |records|
  {
    if records != [] {
      RecordNames(AddUsage(l, TargetRow(episode, records[0])).0, episode, records[1..]);
    }
  }

  lemma DrainKeeps(p: Plan, s: Managed, records: seq<Audit>)
    requires ValidPlan(p) && Inv(p, s) && Priced(Drain(records))
    requires s.open ==> s.episode > 0
    ensures Inv(p, DrainNext(p, s, records))
  {
    if s.open && p.profile.Some? {
      RecordMoves(s.ledger, s.episode, records, s.episode);
      RecordNames(s.ledger, s.episode, records);
    }
  }

  lemma AdmitKeeps(p: Plan, s: Managed)
    requires ValidPlan(p) && Inv(p, s)
    ensures Inv(p, AdmitNext(p, s))
  {
    EpisodeCostNonNegative(s.ledger.rows, s.episode);
  }

  /** A bill moves the totals by at most the reservation and no episode's share. */
  lemma BillKeeps(a: Attacker, l: Ledger, u: Option<Usage>, hash: nat, episode: nat)
    requires ValidAttacker(a) && LedgerInv(l) && (u.Some? ==> WithinReserved(a, u.value))
    ensures var r := Bill(l, u, hash);
            && LedgerInv(r)
            && r.tokens <= l.tokens + Reserved(a).tokens && r.cost <= l.cost + Reserved(a).cost
            && EpisodeUsage(r.rows, episode) == EpisodeUsage(l.rows, episode)
            && forall row :: row in r.rows && row.key.Some? ==> row in l.rows
  {
    UsageWithinReserved(a, 0, Unreachable);
    if u.Some? {
      var row := Invocation(None, hash, u.value.tokens, u.value.cost);
      AddKeeps(l, row);
      AddCharges(l, row, episode);
    }
  }

  lemma BilledWithin(a: Attacker, was: Option<Usage>, outcome: Outcome)
    requires ValidAttacker(a) && (was.Some? ==> WithinReserved(a, was.value))
    ensures var left := UsageLeft(a, was, outcome); left.Some? ==> WithinReserved(a, left.value)
  {
    if outcome.Ran? {
      UsageWithinReserved(a, outcome.size, outcome.answer);
    }
  }

  /** Any ledger that moved by at most the pending reservation settles the generation. */
  lemma SettlesPending(p: Plan, s: Managed, l: Ledger, left: Option<Usage>)
    requires Inv(p, s) && s.pending && LedgerInv(l) && (left.Some? ==> WithinReserved(p.attacker, left.value))
    requires l.tokens <= s.ledger.tokens + Reserved(p.attacker).tokens
    requires l.cost <= s.ledger.cost + Reserved(p.attacker).cost
    requires EpisodeUsage(l.rows, s.episode) == EpisodeUsage(s.ledger.rows, s.episode)
    requires forall row :: row in l.rows && row.key.Some? ==> row in s.ledger.rows
    ensures Inv(p, s.(pending := false, lastUsage := left, ledger := l))
  {
  }

  lemma FinishKeeps(p: Plan, s: Managed, outcome: Outcome, hash: nat)
    requires ValidPlan(p) && Inv(p, s)
    ensures Inv(p, FinishNext(p, s, outcome, hash))
  {
    var left, u := UsageLeft(p.attacker, s.lastUsage, outcome), Billed(p.attacker, s.lastUsage, outcome);
    if s.pending {
      BilledWithin(p.attacker, s.lastUsage, outcome);
      BillKeeps(p.attacker, s.ledger, u, hash, s.episode);
      SettlesPending(p, s, Bill(s.ledger, u, hash), left);
    }
  }

  lemma {:induction false} InvRun(p: Plan, s: Managed, events: seq<Event>)
    requires ValidPlan(p) && Inv(p, s) && (s.open ==> s.episode > 0)
    requires forall i :: 0 <= i < |events| ==> Priced(events[i])
    ensures Inv(p, Run(p, s, events))
    decreases |events|
  {
    if events != [] {
      match events[0] {
        case ResetEpisode => ResetKeeps(p, s);
        case Drain(records) => DrainKeeps(p, s, records);
        case CloseEpisode =>
        case Admit => AdmitKeeps(p, s);
        case Finish(outcome, hash) => FinishKeeps(p, s, outcome, hash);
      }
      InvRun(p, Next(p, s, events[0]), events[1..]);
    }
  }

  // ----- main results -----

  /**
   * Over every run the totals are the sums of the recorded invocations, each target call recorded once,
   * and the limits can be passed only by what the newest episode was charged beyond its profile.
   */
  lemma SpentWithinLimits(p: Plan, events: seq<Event>, s: Managed)
    requires ValidPlan(p) && s == Run(p, START, events)
    requires forall i :: 0 <= i < |events| ==> Priced(events[i])
    ensures LedgerInv(s.ledger)
    ensures var charged := EpisodeUsage(s.ledger.rows, s.episode);
            && s.ledger.tokens as real
               <= p.maxTokens as real + Max(0.0, charged.tokens as real - TargetMaximum(p).tokens as real)
            && s.ledger.cost <= p.maxCost + Max(0.0, charged.cost - TargetMaximum(p).cost)
  {
    StartInv(p);
    InvRun(p, START, events);
    InvBounds(p, s);
  }

  lemma StartInv(p: Plan)
    requires ValidPlan(p)
    ensures Inv(p, START)
  {
  }

  lemma InvBounds(p: Plan, s: Managed)
    requires ValidPlan(p) && Inv(p, s)
    ensures var charged := EpisodeUsage(s.ledger.rows, s.episode);
            && s.ledger.tokens as real
               <= p.maxTokens as real + Max(0.0, charged.tokens as real - TargetMaximum(p).tokens as real)
            && s.ledger.cost <= p.maxCost + Max(0.0, charged.cost - TargetMaximum(p).cost)
  {
    UsageWithinReserved(p.attacker, 0, Unreachable);
  }

  /** Target metering that respects its profile keeps a managed session inside both of its limits. */
  lemma MeteredSessionsStayWithinLimits(p: Plan, events: seq<Event>, s: Managed)
    requires ValidPlan(p) && s == Run(p, START, events)
    requires forall i :: 0 <= i < |events| ==> Priced(events[i])
    requires EpisodeUsage(s.ledger.rows, s.episode).tokens <= TargetMaximum(p).tokens
    requires EpisodeUsage(s.ledger.rows, s.episode).cost <= TargetMaximum(p).cost
    ensures s.ledger.tokens <= p.maxTokens && s.ledger.cost <= p.maxCost
  {
    SpentWithinLimits(p, events, s);
  }

  /** The usage of the generation itself: nothing was asked of the model when the guard refused it. */
  function OwnUsage(a: Attacker, outcome: Outcome): Option<Usage> {
    UsageLeft(a, None, outcome)
  }

  /** A generation is billed for someone else's usage exactly when a stop request beats it to the model. */
  lemma BillsItsOwnUsageIff(a: Attacker, was: Option<Usage>, outcome: Outcome)
    ensures (Billed(a, was, outcome).Some? ==> Billed(a, was, outcome) == OwnUsage(a, outcome))
            <==> (outcome.Ran? || !outcome.fenceHeld || was.None?)
  {
    if outcome.Refused? && outcome.fenceHeld && was.Some? {
      assert OwnUsage(a, outcome) == None;
    }
  }

  // ----- billed invocations over a run -----

  /** The invocations of the attacker model: target calls carry a key. */
  function AttackerRows(rows: seq<Invocation>): seq<Invocation> {
    if rows == [] then []
    else AttackerRows(rows[..|rows| - 1]) + (if rows[|rows| - 1].key.None? then [rows[|rows| - 1]] else [])
  }

  /** What a generation that ends now, with its fence held, has used itself. */
  function OwnRow(p: Plan, s: Managed, e: Event): seq<Invocation> {
    if e.Finish? && s.pending && e.outcome.fenceHeld && OwnUsage(p.attacker, e.outcome).Some? then
      var u := OwnUsage(p.attacker, e.outcome).value;
      [Invocation(None, e.hash, u.tokens, u.cost)]
    else
      []
  }

  function OwnRows(p: Plan, s: Managed, events: seq<Event>): seq<Invocation>
    decreases |events|
  {
    if events == [] then [] else OwnRow(p, s, events[0]) + OwnRows(p, Next(p, s, events[0]), events[1..])
  }

  /** A stop request beats an admitted generation to the model while an earlier usage is still held. */
  predicate Stale(s: Managed, e: Event) {
    e.Finish? && s.pending && e.outcome == Refused(true) && s.lastUsage.Some?
  }

  function StaleCount(p: Plan, s: Managed, events: seq<Event>): nat
    decreases |events|
  {
    if events == [] then 0
    else (if Stale(s, events[0]) then 1 else 0) + StaleCount(p, Next(p, s, events[0]), events[1..])
  }

  lemma AttackerAppend(rows: seq<Invocation>, row: Invocation)
    ensures AttackerRows(rows + [row]) == AttackerRows(rows) + if row.key.None? then [row] else []
  {
    assert (rows + [row])[..|rows|] == rows;
  }

  lemma {:induction false} DrainsBillNoAttacker(l: Ledger, episode: nat, records: seq<Audit>)
    ensures AttackerRows(RecordAll(l, episode, records).0.rows) == AttackerRows(l.rows)
    decreases |records|
  {
    if records != [] {
      var row := TargetRow(episode, records[0]);
      AttackerAppend(l.rows, row);
      DrainsBillNoAttacker(AddUsage(l, row).0, episode, records[1..]);
    }
  }

  lemma BillAppends(l: Ledger, u: Usage, hash: nat)
    ensures AttackerRows(Bill(l, Some(u), hash).rows) == AttackerRows(l.rows) + [Invocation(None, hash, u.tokens, u.cost)]
  {
    AttackerAppend(l.rows, Invocation(None, hash, u.tokens, u.cost));
  }

  /** One event bills its own generation, or once more what was used before it. */
  lemma BillStep(p: Plan, s: Managed, e: Event)
    ensures
      var before, after := AttackerRows(s.ledger.rows), AttackerRows(Next(p, s, e).ledger.rows);
      if Stale(s, e) then |after| == |before| + 1 && OwnRow(p, s, e) == [] else after == before + OwnRow(p, s, e)
  {
    if e.Drain? && s.open && p.profile.Some? {
      DrainsBillNoAttacker(s.ledger, s.episode, e.records);
    }
    if e.Finish? && s.pending {
      var u := Billed(p.attacker, s.lastUsage, e.outcome);
      if u.Some? {
        BillAppends(s.ledger, u.value, e.hash);
      }
    }
  }

  lemma {:induction false} BilledCount(p: Plan, s: Managed, events: seq<Event>)
    ensures |AttackerRows(Run(p, s, events).ledger.rows)|
            == |AttackerRows(s.ledger.rows)| + |OwnRows(p, s, events)| + StaleCount(p, s, events)
    decreases |events|
  {
    if events != [] {
      BillStep(p, s, events[0]);
      BilledCount(p, Next(p, s, events[0]), events[1..]);
    }
  }

  /**
   * Over every run the attacker's invocations are exactly what its generations used, in order,
   * if and only if no stop request beat a generation to the model while an earlier usage was still held.
   */
  lemma {:induction false} BillsOwnUsageIff(p: Plan, s: Managed, events: seq<Event>)
    ensures AttackerRows(Run(p, s, events).ledger.rows) == AttackerRows(s.ledger.rows) + OwnRows(p, s, events)
            <==> StaleCount(p, s, events) == 0
    decreases |events|
  {
    BilledCount(p, s, events);
    if events != [] && StaleCount(p, s, events) == 0 {
      var before, own := AttackerRows(s.ledger.rows), OwnRow(p, s, events[0]);
      BillStep(p, s, events[0]);
      BillsOwnUsageIff(p, Next(p, s, events[0]), events[1..]);
      var rest := OwnRows(p, Next(p, s, events[0]), events[1..]);
      assert before + own + rest == before + (own + rest);
    }
  }

  lemma RunTwo(p: Plan, s: Managed, a: Event, b: Event)
    ensures Run(p, s, [a, b]) == Next(p, Next(p, s, a), b)
  {
    assert [a, b][1..] == [b] && [b][1..] == [];
    assert Run(p, Next(p, s, a), [b]) == Next(p, Next(p, s, a), b);
  }

  /**
   * One request to the model, billed twice: after any generation that reported usage, a second one
   * that is admitted but refused before it begins is billed for the first.
   */
  lemma StaleUsageIsBilledAgain(p: Plan, size: nat, answer: Answer, hash: nat, again: nat)
    requires UsageOf(p.attacker, size, answer).Some? && Fits(p, EMPTY_LEDGER, Reserved(p.attacker))
    requires Fits(p, Bill(EMPTY_LEDGER, UsageOf(p.attacker, size, answer), hash), Reserved(p.attacker))
    ensures var u := UsageOf(p.attacker, size, answer).value;
            var once := Run(p, START, [Admit, Finish(Ran(size, answer, true), hash)]);
            var twice := Run(p, once, [Admit, Finish(Refused(true), again)]);
            && once.ledger.rows == [Invocation(None, hash, u.tokens, u.cost)]
            && twice.ledger.rows == once.ledger.rows + [Invocation(None, again, u.tokens, u.cost)]
            && twice.ledger.tokens == 2 * u.tokens && twice.ledger.cost == 2.0 * u.cost
  {
    var once := Run(p, START, [Admit, Finish(Ran(size, answer, true), hash)]);
    RunTwo(p, START, Admit, Finish(Ran(size, answer, true), hash));
    assert once.ledger == Bill(EMPTY_LEDGER, UsageOf(p.attacker, size, answer), hash) && !once.pending;
    RunTwo(p, once, Admit, Finish(Refused(true), again));
  }

  // ----- what each step decides -----

  /** Tokens and cost already recorded, with these reserved on top, stay within the session's limits. */
  predicate WithinPlan(p: Plan, l: Ledger, tokens: nat, cost: real) {
    l.tokens + tokens <= p.maxTokens && l.cost + cost <= p.maxCost
  }

  /** A reset opens the next episode, unless its profile does not fit: then no episode is open. */
  lemma ResetAnswers(p: Plan, s: Managed)
    requires !s.pending
    ensures var t := Next(p, s, ResetEpisode);
            var fits := p.profile.Some? ==>
                          WithinPlan(p, s.ledger, p.profile.value.maxTotalTokens, p.profile.value.maxCost);
            && (t.open <==> fits)
            && t == s.(open := t.open, episode := if fits then s.episode + 1 else s.episode)
  {
  }

  /** A generation is admitted exactly when its reservation fits on top of a whole episode's profile. */
  lemma AdmitAnswers(p: Plan, s: Managed)
    requires !s.pending
    ensures var t := Next(p, s, Admit);
            var input := p.attacker.maxInputBytes + 1024;
            var tokens, cost := input + p.attacker.maxOutput, Cost(p.attacker, input, p.attacker.maxOutput);
            && (t.pending <==>
                  if p.profile.Some? then
                    WithinPlan(p, s.ledger, p.profile.value.maxTotalTokens + tokens, p.profile.value.maxCost + cost)
                  else WithinPlan(p, s.ledger, tokens, cost))
            && t == s.(pending := t.pending)
  {
    AttackerPriceIsCost(p.attacker, p.attacker.maxInputBytes + 1024, p.attacker.maxOutput);
  }

  /** What a finished generation is recorded as: the usage it left, or the one left before, while the fence is held. */
  lemma FinishAnswers(p: Plan, s: Managed, outcome: Outcome, hash: nat)
    requires s.pending
    ensures var t := Next(p, s, Finish(outcome, hash));
            && !t.pending && t.episode == s.episode && t.open == s.open
            && t.lastUsage == (if outcome.Ran? then UsageOf(p.attacker, outcome.size, outcome.answer) else s.lastUsage)
            && (if outcome.fenceHeld && t.lastUsage.Some? then
                  var u := t.lastUsage.value;
                  t.ledger == Ledger(s.ledger.tokens + u.tokens, s.ledger.cost + u.cost,
                                     s.ledger.rows + [Invocation(None, hash, u.tokens, u.cost)])
                else t.ledger == s.ledger)
  {
  }

  /** Without an open episode a drain records nothing; a closed episode is not open until the next reset. */
  lemma {:induction false} ClosedRecordsNothing(p: Plan, s: Managed, drains: seq<Event>)
    requires forall i :: 0 <= i < |drains| ==> drains[i].Drain? || drains[i].CloseEpisode?
    ensures Run(p, Next(p, s, CloseEpisode), drains) == s.(open := false)
    decreases |drains|
  {
    if drains != [] {
      assert Next(p, Next(p, s, CloseEpisode), drains[0]) == Next(p, s, CloseEpisode);
      ClosedRecordsNothing(p, s, drains[1..]);
    }
  }
}
