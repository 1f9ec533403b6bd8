/** A campaign's usage ledger, and the usage an operator-approved attacker model reports for a generation. */
module ManagedUsage {
  import opened Prelude
  import opened InferenceContracts

  /** Target calls carry the key their invocation id is derived from; attacker calls carry none. */
  datatype Key = Key(episode: nat, request: nat)

  datatype Invocation = Invocation(key: Option<Key>, hash: nat, tokens: nat, cost: real)

  /** The two running totals of a campaign row, with the invocations they were built from. */
  datatype Ledger = Ledger(tokens: int, cost: real, rows: seq<Invocation>)

  datatype Usage = Usage(tokens: nat, cost: real)

  const EMPTY_LEDGER := Ledger(0, 0.0, [])

  // ----- the ledger -----

  function Lookup(rows: seq<Invocation>, key: Option<Key>): (r: Option<Invocation>)
    ensures r.Some? ==> r.value in rows && r.value.key == key && key.Some?
    ensures r.None? && key.Some? ==> forall row :: row in rows ==> row.key != key
  {
    if key.None? || rows == [] then
      None
    else if rows[0].key == key then
      Some(rows[0])
    else
      Lookup(rows[1..], key)
  }

  /** An invocation under a key already recorded is not charged again; with other content it is an error. */
  function AddUsage(l: Ledger, row: Invocation): (r: (Ledger, bool)) {
    var existing := Lookup(l.rows, row.key);
    if existing.Some? then
      (l, existing.value == row)
    else
      (Ledger(l.tokens + row.tokens, l.cost + row.cost, l.rows + [row]), true)
  }

  function TargetRow(episode: nat, a: Audit): Invocation {
    Invocation(Some(Key(episode, a.id)), a.hash, a.input + a.output, a.cost)
  }

  /** A drained batch is recorded in order, and stops at the first conflict. */
  function RecordAll(l: Ledger, episode: nat, records: seq<Audit>): (r: (Ledger, bool))
    decreases |records|
  {
    if records == [] then
      (l, true)
    else
      var one := AddUsage(l, TargetRow(episode, records[0]));
      if one.1 then RecordAll(one.0, episode, records[1..]) else one
  }

  function TokensOf(rows: seq<Invocation>): seq<int> {
    seq(|rows|, i requires 0 <= i < |rows| => rows[i].tokens)
  }

  function CostsOf(rows: seq<Invocation>): seq<real> {
    seq(|rows|, i requires 0 <= i < |rows| => rows[i].cost)
  }

  function OfEpisode(rows: seq<Invocation>, episode: nat): seq<Invocation> {
    if rows == [] then
      []
    else
      var rest := OfEpisode(rows[..|rows| - 1], episode);
      var last := rows[|rows| - 1];
      if last.key.Some? && last.key.value.episode == episode then rest + [last] else rest
  }

  function EpisodeUsage(rows: seq<Invocation>, episode: nat): Usage {
    Usage(EpisodeTokens(rows, episode), Sum(CostsOf(OfEpisode(rows, episode))))
  }

  function EpisodeTokens(rows: seq<Invocation>, episode: nat): nat {
    TotalNonNegative(TokensOf(OfEpisode(rows, episode)));
    Total(TokensOf(OfEpisode(rows, episode)))
  }

  ghost predicate OnePerKey(rows: seq<Invocation>) {
    forall i, j :: 0 <= i < j < |rows| && rows[i].key.Some? ==> rows[i].key != rows[j].key
  }

  ghost predicate LedgerInv(l: Ledger) {
    && l.tokens == Total(TokensOf(l.rows))
    && l.cost == Sum(CostsOf(l.rows))
    && OnePerKey(l.rows)
    && forall i :: 0 <= i < |l.rows| ==> l.rows[i].cost >= 0.0
  }

  lemma TotalsAppend(rows: seq<Invocation>, row: Invocation)
    ensures Total(TokensOf(rows + [row])) == Total(TokensOf(rows)) + row.tokens
    ensures Sum(CostsOf(rows + [row])) == Sum(CostsOf(rows)) + row.cost
  {
    assert TokensOf(rows + [row]) == TokensOf(rows) + [row.tokens];
    TotalAppend(TokensOf(rows), row.tokens);
    assert CostsOf(rows + [row]) == CostsOf(rows) + [row.cost];
    SumAppend(CostsOf(rows), row.cost);
  }

  /** The running totals stay the sums over the recorded invocations, one per key. */
  lemma AddKeeps(l: Ledger, row: Invocation)
    requires LedgerInv(l) && row.cost >= 0.0
    ensures LedgerInv(AddUsage(l, row).0)
  {
    if Lookup(l.rows, row.key).None? {
      TotalsAppend(l.rows, row);
    }
  }

  /** Only the episode a row names is charged for it. */
  lemma AddCharges(l: Ledger, row: Invocation, episode: nat)
    requires Lookup(l.rows, row.key).None?
    ensures var after := EpisodeUsage(AddUsage(l, row).0.rows, episode);
            var before := EpisodeUsage(l.rows, episode);
            if row.key.Some? && row.key.value.episode == episode
            then after == Usage(before.tokens + row.tokens, before.cost + row.cost)
            else after == before
  {
    assert (l.rows + [row])[..|l.rows|] == l.rows;
    TotalsAppend(OfEpisode(l.rows, episode), row);
  }

  lemma {:induction false} EpisodeCostNonNegative(rows: seq<Invocation>, episode: nat)
    requires forall i :: 0 <= i < |rows| ==> rows[i].cost >= 0.0
    ensures EpisodeUsage(rows, episode).cost >= 0.0
  {
    OfEpisodeIn(rows, episode);
    SumNonNegative(CostsOf(OfEpisode(rows, episode)));
  }

  lemma {:induction false} OfEpisodeIn(rows: seq<Invocation>, episode: nat)
    ensures forall row :: row in OfEpisode(rows, episode) ==>
              row in rows && row.key.Some? && row.key.value.episode == episode
  {
    if rows != [] {
      OfEpisodeIn(rows[..|rows| - 1], episode);
    }
  }

  /** Recording moves the totals and the named episode's share by the same amount, and no other episode's. */
  lemma {:induction false} RecordMoves(l: Ledger, episode: nat, records: seq<Audit>, other: nat)
    requires LedgerInv(l)
    requires forall i :: 0 <= i < |records| ==> records[i].cost >= 0.0
    ensures var r := RecordAll(l, episode, records).0;
            && LedgerInv(r)
            && l.tokens <= r.tokens && l.cost <= r.cost
            && EpisodeUsage(r.rows, episode).tokens - EpisodeUsage(l.rows, episode).tokens == r.tokens - l.tokens
            && EpisodeUsage(r.rows, episode).cost - EpisodeUsage(l.rows, episode).cost == r.cost - l.cost
            && (other != episode ==> EpisodeUsage(r.rows, other) == EpisodeUsage(l.rows, other))
    decreases |records|
  {
    if records != [] {
      var row := TargetRow(episode, records[0]);
      var one := AddUsage(l, row);
      AddKeeps(l, row);
      if Lookup(l.rows, row.key).None? {
        AddCharges(l, row, episode);
        AddCharges(l, row, other);
      }
      if one.1 {
        RecordMoves(one.0, episode, records[1..], other);
      }
    }
  }

  lemma {:induction false} LookupAppend(rows: seq<Invocation>, row: Invocation, key: Option<Key>)
    ensures Lookup(rows, key).Some? ==> Lookup(rows + [row], key) == Lookup(rows, key)
    ensures Lookup(rows, key).None? && key.Some? && row.key == key ==> Lookup(rows + [row], key) == Some(row)
  {
    if key.Some? && rows != [] && rows[0].key != key {
      assert (rows + [row])[1..] == rows[1..] + [row];
      LookupAppend(rows[1..], row, key);
    }
  }

  lemma AddRecords(l: Ledger, row: Invocation)
    requires row.key.Some? && AddUsage(l, row).1
    ensures Lookup(AddUsage(l, row).0.rows, row.key) == Some(row)
    ensures forall key :: Lookup(l.rows, key).Some? ==>
              Lookup(AddUsage(l, row).0.rows, key) == Lookup(l.rows, key)
  {
    LookupAppend(l.rows, row, row.key);
    forall key | Lookup(l.rows, key).Some?
      ensures Lookup(AddUsage(l, row).0.rows, key) == Lookup(l.rows, key)
    {
      LookupAppend(l.rows, row, key);
    }
  }

  ghost predicate Recorded(l: Ledger, episode: nat, records: seq<Audit>) {
    forall i :: 0 <= i < |records| ==>
      Lookup(l.rows, Some(Key(episode, records[i].id))) == Some(TargetRow(episode, records[i]))
  }

  lemma {:induction false} RecordAllRecords(l: Ledger, episode: nat, records: seq<Audit>)
    requires RecordAll(l, episode, records).1
    ensures Recorded(RecordAll(l, episode, records).0, episode, records)
    ensures forall key :: Lookup(l.rows, key).Some? ==>
              Lookup(RecordAll(l, episode, records).0.rows, key) == Lookup(l.rows, key)
    decreases |records|
  {
    if records != [] {
      var row := TargetRow(episode, records[0]);
      AddRecords(l, row);
      RecordAllRecords(AddUsage(l, row).0, episode, records[1..]);
    }
  }

  lemma {:induction false} RecordedIsSkipped(l: Ledger, episode: nat, records: seq<Audit>)
    requires Recorded(l, episode, records)
    ensures RecordAll(l, episode, records) == (l, true)
    decreases |records|
  {
    if records != [] {
      assert Lookup(l.rows, Some(Key(episode, records[0].id))) == Some(TargetRow(episode, records[0]));
      RecordedIsSkipped(l, episode, records[1..]);
    }
  }

  /** A drain that is lost after it was recorded, and so repeated with the same records, charges nothing. */
  lemma RepeatedDrainIsFree(l: Ledger, episode: nat, records: seq<Audit>)
    requires RecordAll(l, episode, records).1
    ensures var once := RecordAll(l, episode, records).0;
            RecordAll(once, episode, records) == (once, true)
  {
    RecordAllRecords(l, episode, records);
    RecordedIsSkipped(RecordAll(l, episode, records).0, episode, records);
  }

  // ----- the attacker model -----

  /** `inputRate` and `outputRate` are per million tokens. */
  datatype Attacker = Attacker(maxInputBytes: nat, maxOutput: nat, inputRate: real, outputRate: real)

  predicate ValidAttacker(a: Attacker) {
    a.inputRate >= 0.0 && a.outputRate >= 0.0
  }

  /** `reported` is absent when the response's counts are not both integers. */
  datatype Answer =
    | Unreachable
    | Answered(reported: Option<(int, int)>, actionValid: bool)

  function AttackerPrice(a: Attacker, input: nat, output: nat): real {
    PriceAt(a.inputRate, a.outputRate, input, output)
  }

  function Reserved(a: Attacker): Usage {
    Usage(a.maxInputBytes + 1024 + a.maxOutput, AttackerPrice(a, a.maxInputBytes + 1024, a.maxOutput))
  }

  predicate InRange(a: Attacker, reported: (int, int)) {
    0 <= reported.0 <= a.maxInputBytes + 1024 && 0 <= reported.1 <= a.maxOutput
  }

  /** What `last_usage` holds after a generation whose request encodes to `size` bytes. */
  function UsageOf(a: Attacker, size: nat, answer: Answer): Option<Usage> {
    if size > a.maxInputBytes then
      None
    else if answer.Answered? && answer.reported.Some? && InRange(a, answer.reported.value) then
      var (input, output) := answer.reported.value;
      Some(Usage(input + output, AttackerPrice(a, input, output)))
    else
      Some(Reserved(a))
  }

  lemma UsageWithinReserved(a: Attacker, size: nat, answer: Answer)
    requires ValidAttacker(a)
    ensures UsageOf(a, size, answer).Some? ==> WithinReserved(a, UsageOf(a, size, answer).value)
  {
    if UsageOf(a, size, answer).Some? {
      var input, output := a.maxInputBytes + 1024, a.maxOutput;
      if answer.Answered? && answer.reported.Some? && InRange(a, answer.reported.value) {
        input, output := answer.reported.value.0, answer.reported.value.1;
      }
      PriceAtMonotone(a.inputRate, a.outputRate, input, output, a.maxInputBytes + 1024, a.maxOutput);
    }
  }

  predicate WithinReserved(a: Attacker, u: Usage) {
    u.tokens <= Reserved(a).tokens && 0.0 <= u.cost <= Reserved(a).cost
  }

  // ----- what is recorded and reported -----

  predicate KeySeen(rows: seq<Invocation>, key: Option<Key>) {
    key.Some? && exists i :: 0 <= i < |rows| && rows[i].key == key
  }

  predicate KeysDiffer(rows: seq<Invocation>) {
    forall i, j :: 0 <= i < j < |rows| && rows[i].key.Some? ==> rows[i].key != rows[j].key
  }

  /** An invocation under a new key is charged; the same one again is not; another one under its key is an error. */
  lemma AddUsageAnswers(l: Ledger, row: Invocation)
    requires KeysDiffer(l.rows)
    ensures var (after, ok) := AddUsage(l, row);
            && KeysDiffer(after.rows)
            && (if KeySeen(l.rows, row.key) then
                  after == l && forall i :: 0 <= i < |l.rows| && l.rows[i].key == row.key ==> (ok <==> l.rows[i] == row)
                else
                  ok && after == Ledger(l.tokens + row.tokens, l.cost + row.cost, l.rows + [row]))
  {
  }

  /** The price at the operator's rates, which are per million tokens. */
  function Cost(a: Attacker, input: nat, output: nat): real {
    (input as real * a.inputRate + output as real * a.outputRate) / 1000000.0
  }

  lemma AttackerPriceIsCost(a: Attacker, input: nat, output: nat)
    ensures AttackerPrice(a, input, output) == Cost(a, input, output)
  {
    ScaleIsProduct(a.inputRate, input);
    ScaleIsProduct(a.outputRate, output);
    var x, y := input as real * a.inputRate, output as real * a.outputRate;
    assert Scale(a.inputRate, input) == x && Scale(a.outputRate, output) == y;
    assert AttackerPrice(a, input, output) == (x + y) / 1000000.0;
  }

  /** The counts that are taken at their word: both there, not negative, and within the input and output limits. */
  predicate Trusted(a: Attacker, answer: Answer) {
    && answer.Answered? && answer.reported.Some?
    && answer.reported.value.0 >= 0 && answer.reported.value.0 <= a.maxInputBytes + 1024
    && answer.reported.value.1 >= 0 && answer.reported.value.1 <= a.maxOutput
  }

  /**
   * A request that is too large leaves no usage; trusted counts are priced at the rates;
   * anything else is charged as the largest input and output there can be.
   */
  lemma UsageAnswers(a: Attacker, size: nat, answer: Answer)
    ensures var u := UsageOf(a, size, answer);
            && (u.None? <==> size > a.maxInputBytes)
            && (u.Some? ==>
                  var input, output := if Trusted(a, answer) then answer.reported.value.0 else a.maxInputBytes + 1024,
                                       if Trusted(a, answer) then answer.reported.value.1 else a.maxOutput;
                  u.value == Usage(input + output, Cost(a, input, output)))
  {
    AttackerPriceIsCost(a, a.maxInputBytes + 1024, a.maxOutput);
    if Trusted(a, answer) {
      AttackerPriceIsCost(a, answer.reported.value.0, answer.reported.value.1);
    }
  }
}
