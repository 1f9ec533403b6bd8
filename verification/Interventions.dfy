/** Delivery attempts, their receipts, and the response overlay. */
module Interventions {
  import opened Prelude
  import opened JsonTree
  import opened NumberedLogs

  const RECEIPT_LIMIT := 1000

  datatype Channel = UserMessage | UploadedDocument | SimulatedToolResult | OtherChannel

  datatype Slot =
    | DocumentSlot(id: nat, name: nat)
    | ToolSlot(id: nat, alias: nat, operation: nat, match_: seq<(string, Json)>, occurrence: nat, path: Path)

  /** `payload` is absent when it fails the surface's schema or size. */
  datatype Payload = Payload(slot: nat, content: string)

  datatype Document =
    | Malformed
    | Action(channel: Channel, payload: Option<Payload>)

  datatype Status = Applied | UnsupportedSurface | MalformedAction | UnavailableSlot | TargetRejected | DeliveryUnknown

  datatype Evidence = TargetAcknowledgement | GatewayToolResponse | NoEvidence | Unconfirmed

  datatype Receipt = Receipt(attempt: nat, status: Status, evidence: Evidence, content: Option<string>,
                             correlation: Option<nat>)

  /** What the target must acknowledge; the content stands for its hash. */
  datatype Plan = Plan(deliveryId: nat, channel: Channel, slot: Option<nat>, content: string)

  datatype Attempt = Attempt(channel: Option<Channel>, plan: Option<Plan>, slot: Option<Slot>, matches: nat,
                             receipt: Option<Receipt>)

  /** Attempts are numbered by position; the number is the delivery id. */
  datatype Delivery = Delivery(surfaces: map<Channel, seq<Slot>>, attempts: seq<Attempt>, active: Option<nat>,
                               records: seq<Numbered<Receipt>>)

  datatype Failure = RejectedByTarget | OutcomeUnknown

  datatype Effect = Effect(correlation: nat, alias: nat, operation: nat, arguments: map<string, Json>)

  datatype Response = Response(success: bool, result: Json)

  datatype Prepared = AlreadyActive | LimitReached | NewAttempt(delivery: Delivery, attempt: nat)

  /** `Raised` when comparing an argument meets a value that cannot be encoded. */
  datatype Overlaid = Raised | Shown(response: Response)

  // ----- operations -----

  function Record(d: Delivery, i: nat, status: Status, evidence: Evidence, correlation: Option<nat>): (r: Delivery)
    requires i < |d.attempts|
  {
    var a := d.attempts[i];
    if a.receipt.Some? then
      d
    else
      var content := if status.Applied? && a.plan.Some? then Some(a.plan.value.content) else None;
      var receipt := Receipt(i, status, evidence, content, correlation);
      d.(attempts := d.attempts[i := a.(receipt := Some(receipt))],
         records := d.records + [Numbered(|d.records| + 1, receipt)])
  }

  function FindSlot(slots: seq<Slot>, channel: Channel, name: nat): (r: Option<Slot>)
    ensures r.Some? ==> r.value in slots
  {
    if slots == [] then
      None
    else if (if channel.UploadedDocument? then slots[0].DocumentSlot? && slots[0].name == name else slots[0].id == name) then
      Some(slots[0])
    else
      FindSlot(slots[1..], channel, name)
  }

  /** The verdict on a document before anything is sent: a status to record, or the slot to deliver to. */
  datatype Verdict = Reject(status: Status) | Deliver(slot: Option<Slot>)

  function Examine(surfaces: map<Channel, seq<Slot>>, document: Document): Verdict {
    match document
    case Malformed => Reject(MalformedAction)
    case Action(channel, payload) =>
      if channel !in surfaces then
        Reject(UnsupportedSurface)
      else if payload.None? then
        Reject(MalformedAction)
      else if channel.UserMessage? then
        Deliver(None)
      else
        var slot := FindSlot(surfaces[channel], channel, payload.value.slot);
        if slot.None? then Reject(UnavailableSlot) else Deliver(slot)
  }

  function Prepare(d: Delivery, document: Document): Prepared {
    if d.active.Some? then
      AlreadyActive
    else if |d.records| >= RECEIPT_LIMIT then
      LimitReached
    else
      var i := |d.attempts|;
      var channel := if document.Action? then Some(document.channel) else None;
      match Examine(d.surfaces, document)
      case Reject(status) =>
        var begun := d.(attempts := d.attempts + [Attempt(channel, None, None, 0, None)]);
        NewAttempt(Record(begun, i, status, NoEvidence, None), i)
      case Deliver(slot) =>
        var plan := PlanFor(i, document, slot);
        NewAttempt(d.(attempts := d.attempts + [Attempt(channel, Some(plan), slot, 0, None)], active := Some(i)), i)
  }

  function PlanFor(i: nat, document: Document, slot: Option<Slot>): Plan
    requires document.Action? && document.payload.Some?
  {
    Plan(i, document.channel, if slot.Some? then Some(slot.value.id) else None, document.payload.value.content)
  }

  /** `None` when the comparison raises; declared arguments are compared in order, up to the first mismatch. */
  function ArgumentsMatch(declared: seq<(string, Json)>, arguments: map<string, Json>): Option<bool> {
    if declared == [] then
      Some(true)
    else if declared[0].0 !in arguments then
      Some(false)
    else if !Encodable(arguments[declared[0].0]) || !Encodable(declared[0].1) then
      None
    else if arguments[declared[0].0] != declared[0].1 then
      Some(false)
    else
      ArgumentsMatch(declared[1..], arguments)
  }

  /** The active attempt whose declared response slot this effect might fill. */
  predicate Addressed(d: Delivery, effect: Effect, deliveryId: Option<nat>) {
    && d.active.Some?
    && d.active.value < |d.attempts|
    && var a := d.attempts[d.active.value];
       && a.receipt.None?
       && a.plan.Some?
       && deliveryId == Some(a.plan.value.deliveryId)
       && a.slot.Some?
       && a.slot.value.ToolSlot?
       && a.slot.value.alias == effect.alias
       && a.slot.value.operation == effect.operation
  }

  function Overlay(d: Delivery, effect: Effect, response: Response, deliveryId: Option<nat>): (Delivery, Overlaid) {
    if !Addressed(d, effect, deliveryId) then
      (d, Shown(response))
    else
      var i := d.active.value;
      var a := d.attempts[i];
      var matched := ArgumentsMatch(a.slot.value.match_, effect.arguments);
      if matched.None? then
        (d, Raised)
      else if !matched.value then
        (d, Shown(response))
      else
        var counted := d.(attempts := d.attempts[i := a.(matches := a.matches + 1)]);
        var leaf := At(response.result, a.slot.value.path);
        if a.matches + 1 != a.slot.value.occurrence || !response.success || leaf.None? || !leaf.value.Text? then
          (counted, Shown(response))
        else
          (Record(counted, i, Applied, GatewayToolResponse, Some(effect.correlation)),
           Shown(response.(result := Put(response.result, a.slot.value.path, Text(a.plan.value.content)))))
  }

  /** The status an attempt ends with when nothing has been recorded for it. */
  function Conclusion(a: Attempt, ack: Option<Plan>, failure: Option<Failure>): (Status, Evidence) {
    if failure == Some(RejectedByTarget) then
      (TargetRejected, NoEvidence)
    else if failure == Some(OutcomeUnknown) then
      (DeliveryUnknown, Unconfirmed)
    else if a.channel == Some(SimulatedToolResult) then
      (UnavailableSlot, NoEvidence)
    else if ack.None? || ack != a.plan then
      (DeliveryUnknown, Unconfirmed)
    else
      (Applied, TargetAcknowledgement)
  }

  function Finish(d: Delivery, i: nat, ack: Option<Plan>, failure: Option<Failure>): Delivery
    requires i < |d.attempts|
  {
    var (status, evidence) := Conclusion(d.attempts[i], ack, failure);
    var recorded := Record(d, i, status, evidence, None);
    if recorded.active == Some(i) then recorded.(active := None) else recorded
  }

  // ----- the invariant -----

  ghost predicate SurfacesValid(surfaces: map<Channel, seq<Slot>>) {
    forall c, k :: c in surfaces && 0 <= k < |surfaces[c]| ==>
      && (surfaces[c][k].ToolSlot? ==> c.SimulatedToolResult? && surfaces[c][k].path != [])
      && (c.SimulatedToolResult? ==> surfaces[c][k].ToolSlot?)
  }

  ghost predicate AttemptOk(d: Delivery, i: nat)
    requires i < |d.attempts|
  {
    var a := d.attempts[i];
    && (a.receipt.None? ==> d.active == Some(i))
    && (a.plan.Some? ==> a.plan.value.deliveryId == i)
    && (a.slot.Some? && a.slot.value.ToolSlot? <==> a.plan.Some? && a.channel == Some(SimulatedToolResult))
    && (a.slot.Some? && a.slot.value.ToolSlot? ==> a.slot.value.path != [])
    && (a.receipt.Some? ==> ReceiptOk(a, i, a.receipt.value))
  }

  /** A receipt claims delivery only of the planned content, and a tool result only at its declared occurrence. */
  ghost predicate ReceiptOk(a: Attempt, i: nat, r: Receipt) {
    && r.attempt == i
    && (r.status.Applied? ==>
          && a.plan.Some?
          && r.content == Some(a.plan.value.content)
          && (if a.slot.Some? && a.slot.value.ToolSlot?
              then r.evidence.GatewayToolResponse? && a.matches == a.slot.value.occurrence && r.correlation.Some?
              else r.evidence.TargetAcknowledgement?))
    && (!r.status.Applied? ==> r.content.None? && (r.evidence.NoEvidence? || r.evidence.Unconfirmed?))
  }

  /** Records and attempts with a receipt correspond one to one. */
  ghost predicate Corresponds(d: Delivery) {
    && IsNumbered(d.records)
    && (forall k :: 0 <= k < |d.records| ==>
          && d.records[k].item.attempt < |d.attempts|
          && d.attempts[d.records[k].item.attempt].receipt == Some(d.records[k].item))
    && (forall i :: 0 <= i < |d.attempts| && d.attempts[i].receipt.Some? ==>
          exists k :: 0 <= k < |d.records| && d.records[k].item == d.attempts[i].receipt.value)
    && (forall j, k :: 0 <= j < k < |d.records| ==> d.records[j].item.attempt != d.records[k].item.attempt)
  }

  predicate Awaiting(d: Delivery) {
    d.active.Some? && d.active.value < |d.attempts| && d.attempts[d.active.value].receipt.None?
  }

  ghost predicate DeliveryInv(d: Delivery) {
    && SurfacesValid(d.surfaces)
    && Corresponds(d)
    && (d.active.Some? ==> d.active.value < |d.attempts| && d.attempts[d.active.value].plan.Some?)
    && |d.records| + (if Awaiting(d) then 1 else 0) <= RECEIPT_LIMIT
    && forall i :: 0 <= i < |d.attempts| ==> AttemptOk(d, i)
  }

  lemma RecordCorresponds(d: Delivery, i: nat, status: Status, evidence: Evidence, correlation: Option<nat>)
    requires i < |d.attempts| && Corresponds(d)
    ensures Corresponds(Record(d, i, status, evidence, correlation))
  {
    if d.attempts[i].receipt.None? {
      var r := Record(d, i, status, evidence, correlation);
      ReceiptCorresponds(d, r, i, r.attempts[i].receipt.value);
    }
  }

  lemma ReceiptCorresponds(d: Delivery, r: Delivery, i: nat, receipt: Receipt)
    requires i < |d.attempts| && Corresponds(d) && d.attempts[i].receipt.None? && receipt.attempt == i
    requires r.attempts == d.attempts[i := d.attempts[i].(receipt := Some(receipt))]
    requires r.records == d.records + [Numbered(|d.records| + 1, receipt)]
    ensures Corresponds(r)
  {
    assert r.records[|d.records|].item == receipt;
    forall j | 0 <= j < |r.attempts| && r.attempts[j].receipt.Some?
      ensures exists k :: 0 <= k < |r.records| && r.records[k].item == r.attempts[j].receipt.value
    {
      if j != i {
        var k :| 0 <= k < |d.records| && d.records[k].item == d.attempts[j].receipt.value;
        assert r.records[k].item == r.attempts[j].receipt.value;
      }
    }
  }

  lemma PrepareKeeps(d: Delivery, document: Document)
    requires DeliveryInv(d) && Prepare(d, document).NewAttempt?
    ensures DeliveryInv(Prepare(d, document).delivery)
  {
    var r := Prepare(d, document).delivery;
    var channel := if document.Action? then Some(document.channel) else None;
    var i := |d.attempts|;
    match Examine(d.surfaces, document)
    case Reject(status) =>
      var begun := d.(attempts := d.attempts + [Attempt(channel, None, None, 0, None)]);
      BegunCorresponds(d, begun.attempts[i]);
      RecordCorresponds(begun, i, status, NoEvidence, None);
      forall j | 0 <= j < |r.attempts|
        ensures AttemptOk(r, j)
      {
        if j < i {
          assert AttemptOk(d, j);
        }
      }
    case Deliver(slot) =>
      BegunCorresponds(d, r.attempts[i]);
      forall j | 0 <= j < |r.attempts|
        ensures AttemptOk(r, j)
      {
        if j < i {
          assert AttemptOk(d, j);
        }
      }
  }

  lemma BegunCorresponds(d: Delivery, a: Attempt)
    requires Corresponds(d) && a.receipt.None?
    ensures Corresponds(d.(attempts := d.attempts + [a]))
  {
  }

  lemma OverlayKeeps(d: Delivery, effect: Effect, response: Response, deliveryId: Option<nat>)
    requires DeliveryInv(d)
    ensures DeliveryInv(Overlay(d, effect, response, deliveryId).0)
  {
    var r := Overlay(d, effect, response, deliveryId).0;
    if r != d {
      var i := d.active.value;
      var a := d.attempts[i];
      assert AttemptOk(d, i);
      var counted := d.(attempts := d.attempts[i := a.(matches := a.matches + 1)]);
      assert Corresponds(counted);
      RecordCorresponds(counted, i, Applied, GatewayToolResponse, Some(effect.correlation));
      forall j | 0 <= j < |r.attempts|
        ensures AttemptOk(r, j)
      {
        assert AttemptOk(d, j);
      }
    }
  }

  lemma FinishAttempts(d: Delivery, i: nat, ack: Option<Plan>, failure: Option<Failure>)
    requires DeliveryInv(d) && i < |d.attempts|
    ensures var r := Finish(d, i, ack, failure); forall j :: 0 <= j < |r.attempts| ==> AttemptOk(r, j)
  {
    var r := Finish(d, i, ack, failure);
    assert AttemptOk(d, i);
    forall j | 0 <= j < |r.attempts|
      ensures AttemptOk(r, j)
    {
      assert AttemptOk(d, j);
    }
  }

  /** Finishing an attempt always leaves it with its one receipt and the active slot free of it. */
  lemma FinishKeeps(d: Delivery, i: nat, ack: Option<Plan>, failure: Option<Failure>)
    requires DeliveryInv(d) && i < |d.attempts|
    ensures var r := Finish(d, i, ack, failure);
            && DeliveryInv(r)
            && r.active == (if d.active == Some(i) then None else d.active)
            && r.attempts[i].receipt.Some?
            && (d.attempts[i].receipt.Some? ==> r.attempts == d.attempts && r.records == d.records)
  {
    var (status, evidence) := Conclusion(d.attempts[i], ack, failure);
    assert AttemptOk(d, i);
    RecordCorresponds(d, i, status, evidence, None);
    FinishAttempts(d, i, ack, failure);
  }

  // ----- the overlay -----

  /** The effect is a call of the tool whose response the attempt in progress wants to replace. */
  ghost predicate Targets(d: Delivery, effect: Effect, deliveryId: Option<nat>) {
    exists i :: d.active == Some(i) && i < |d.attempts| && TargetsAttempt(d.attempts[i], effect, deliveryId)
  }

  predicate TargetsAttempt(a: Attempt, effect: Effect, deliveryId: Option<nat>) {
    && a.receipt.None? && a.plan.Some? && deliveryId == Some(a.plan.value.deliveryId)
    && a.slot.Some? && a.slot.value.ToolSlot?
    && a.slot.value.alias == effect.alias && a.slot.value.operation == effect.operation
  }

  /** The k-th declared argument is there and equal, and both can be encoded. */
  predicate SameArgument(declared: seq<(string, Json)>, arguments: map<string, Json>, k: nat)
    requires k < |declared|
  {
    && declared[k].0 in arguments && Encodable(arguments[declared[k].0]) && Encodable(declared[k].1)
    && arguments[declared[k].0] == declared[k].1
  }

  /** The k-th declared argument is there, and comparing it meets a value that cannot be encoded. */
  predicate CannotCompare(declared: seq<(string, Json)>, arguments: map<string, Json>, k: nat)
    requires k < |declared|
  {
    declared[k].0 in arguments && !(Encodable(arguments[declared[k].0]) && Encodable(declared[k].1))
  }

  /** The first declared argument that is not the same cannot be compared. */
  predicate Incomparable(declared: seq<(string, Json)>, arguments: map<string, Json>) {
    exists k :: 0 <= k < |declared| && CannotCompare(declared, arguments, k)
                && forall j :: 0 <= j < k ==> SameArgument(declared, arguments, j)
  }

  predicate AllSame(declared: seq<(string, Json)>, arguments: map<string, Json>) {
    forall k :: 0 <= k < |declared| ==> SameArgument(declared, arguments, k)
  }

  lemma {:induction false} ComparisonFrom(declared: seq<(string, Json)>, arguments: map<string, Json>, n: nat)
    requires n <= |declared|
    ensures ArgumentsMatch(declared[n..], arguments) == Some(true)
            <==> forall k :: n <= k < |declared| ==> SameArgument(declared, arguments, k)
    ensures ArgumentsMatch(declared[n..], arguments).None?
            <==> exists k :: n <= k < |declared| && CannotCompare(declared, arguments, k)
                             && forall j :: n <= j < k ==> SameArgument(declared, arguments, j)
    decreases |declared| - n
  {
    if n < |declared| {
      assert declared[n..][0] == declared[n] && declared[n..][1..] == declared[n + 1..];
      ComparisonFrom(declared, arguments, n + 1);
      if CannotCompare(declared, arguments, n) {
        assert !SameArgument(declared, arguments, n);
      } else if SameArgument(declared, arguments, n) && ArgumentsMatch(declared[n + 1..], arguments).None? {
        var k :| n + 1 <= k < |declared| && CannotCompare(declared, arguments, k)
                 && forall j :: n + 1 <= j < k ==> SameArgument(declared, arguments, j);
        assert forall j :: n <= j < k ==> SameArgument(declared, arguments, j);
      }
    }
  }

  /** The comparison is true exactly when all are the same, and raises exactly when the first other one cannot be compared. */
  lemma ComparisonIs(declared: seq<(string, Json)>, arguments: map<string, Json>)
    ensures ArgumentsMatch(declared, arguments) == Some(true) <==> AllSame(declared, arguments)
    ensures ArgumentsMatch(declared, arguments).None? <==> Incomparable(declared, arguments)
  {
    assert declared[0..] == declared;
    ComparisonFrom(declared, arguments, 0);
  }

  /** The effect is another occurrence of the declared call. */
  ghost predicate Occurs(d: Delivery, effect: Effect, deliveryId: Option<nat>) {
    && Targets(d, effect, deliveryId)
    && AllSame(d.attempts[d.active.value].slot.value.match_, effect.arguments)
  }

  /** Exactly when a response is replaced. */
  ghost predicate Replaces(d: Delivery, effect: Effect, response: Response, deliveryId: Option<nat>) {
    && Occurs(d, effect, deliveryId)
    && var a := d.attempts[d.active.value];
       && a.matches + 1 == a.slot.value.occurrence
       && response.success
       && At(response.result, a.slot.value.path).Some?
       && At(response.result, a.slot.value.path).value.Text?
  }

  /** The attempt in progress has counted one occurrence more, and nothing else changed. */
  ghost predicate CountsOne(d: Delivery, after: Delivery) {
    && d.active.Some? && d.active.value < |d.attempts|
    && var i := d.active.value;
       after == d.(attempts := d.attempts[i := d.attempts[i].(matches := d.attempts[i].matches + 1)])
  }

  /** The occurrence is counted, and the attempt has a receipt that it was applied to this effect. */
  ghost predicate AppliesTo(d: Delivery, after: Delivery, effect: Effect) {
    && d.active.Some? && d.active.value < |d.attempts| && d.attempts[d.active.value].plan.Some?
    && var i := d.active.value;
       var a := d.attempts[i];
       var receipt := Receipt(i, Applied, GatewayToolResponse, Some(a.plan.value.content), Some(effect.correlation));
       after == d.(attempts := d.attempts[i := a.(matches := a.matches + 1, receipt := Some(receipt))],
                   records := d.records + [Numbered(|d.records| + 1, receipt)])
  }

  /**
   * The response differs from the world's result only when the overlay applies; then a receipt is recorded,
   * the leaf at the declared path holds the content, the objects above it keep their keys,
   * and writing the old leaf back gives the world's result. Each occurrence is counted once.
   */
  lemma OverlayTouchesOnlyItsPath(d: Delivery, effect: Effect, response: Response, deliveryId: Option<nat>)
    requires DeliveryInv(d)
    ensures var (after, shown) := Overlay(d, effect, response, deliveryId);
            && (shown.Raised? <==>
                  && Targets(d, effect, deliveryId)
                  && Incomparable(d.attempts[d.active.value].slot.value.match_, effect.arguments))
            && (!Occurs(d, effect, deliveryId) ==> after == d)
            && (Occurs(d, effect, deliveryId) && !Replaces(d, effect, response, deliveryId) ==> CountsOne(d, after))
            && (shown.Shown? && !Replaces(d, effect, response, deliveryId) ==> shown.response == response)
            && (Replaces(d, effect, response, deliveryId) ==>
                  var a := d.attempts[d.active.value];
                  AppliesTo(d, after, effect) && shown.Shown?
                  && ReplacedAt(response, shown.response, a.slot.value.path, a.plan.value.content))
  {
    if Targets(d, effect, deliveryId) {
      var a := d.attempts[d.active.value];
      ComparisonIs(a.slot.value.match_, effect.arguments);
      if Replaces(d, effect, response, deliveryId) {
        var path, leaf := a.slot.value.path, Text(a.plan.value.content);
        PutReplaces(response, path, a.plan.value.content);
        OverlayReplaces(d, effect, response, deliveryId);
      }
    }
  }

  lemma OverlayReplaces(d: Delivery, effect: Effect, response: Response, deliveryId: Option<nat>)
    requires DeliveryInv(d) && Replaces(d, effect, response, deliveryId)
    ensures var (after, shown) := Overlay(d, effect, response, deliveryId);
            var a := d.attempts[d.active.value];
            && AppliesTo(d, after, effect)
            && shown == Shown(response.(result := Put(response.result, a.slot.value.path, Text(a.plan.value.content))))
  {
    ComparisonIs(d.attempts[d.active.value].slot.value.match_, effect.arguments);
  }

  /** One response is the other with the text leaf at the path replaced. */
  ghost predicate ReplacedAt(before: Response, after: Response, path: Path, content: string) {
    && after.success == before.success
    && At(after.result, path) == Some(Text(content))
    && At(before.result, path).Some?
    && Put(after.result, path, At(before.result, path).value) == before.result
    && (forall other: Path :: !(path <= other) && !(other <= path) ==>
          At(after.result, other) == At(before.result, other))
    && forall above: Path :: above < path ==> SameKeys(At(before.result, above), At(after.result, above))
  }

  lemma PutReplaces(response: Response, path: Path, content: string)
    requires At(response.result, path).Some?
    ensures ReplacedAt(response, response.(result := Put(response.result, path, Text(content))), path, content)
  {
    var leaf := Text(content);
    PutThenAt(response.result, path, leaf);
    PutBack(response.result, path, leaf);
    forall other: Path | !(path <= other) && !(other <= path)
      ensures At(Put(response.result, path, leaf), other) == At(response.result, other)
    {
      PutElsewhere(response.result, path, leaf, other);
    }
    forall above: Path | above < path
      ensures SameKeys(At(response.result, above), At(Put(response.result, path, leaf), above))
    {
      PutKeepsKeys(response.result, path, leaf, above);
    }
  }

  /** Comparing arguments fails only on a value that cannot be encoded. */
  lemma {:induction false} RaisesOnlyOnUnencodable(declared: seq<(string, Json)>, arguments: map<string, Json>)
    requires ArgumentsMatch(declared, arguments).None?
    ensures (exists key :: key in arguments && !Encodable(arguments[key]))
            || (exists k :: 0 <= k < |declared| && !Encodable(declared[k].1))
  {
    if Encodable(arguments[declared[0].0]) && Encodable(declared[0].1) {
      RaisesOnlyOnUnencodable(declared[1..], arguments);
      if k :| 0 <= k < |declared[1..]| && !Encodable(declared[1..][k].1) {
        assert declared[k + 1] == declared[1..][k];
      }
    }
  }

  // ----- what is recorded -----

  /** The only change: the attempt without a receipt has this one, and it is the newest of the log. */
  predicate Receipted(d: Delivery, after: Delivery, i: nat, r: Receipt) {
    && i < |d.attempts| && d.attempts[i].receipt.None?
    && after.attempts == d.attempts[i := d.attempts[i].(receipt := Some(r))]
    && after.records == d.records + [Numbered(|d.records| + 1, r)]
    && after.surfaces == d.surfaces
  }

  /** How an attempt without a receipt is concluded, by the failure, its channel and the acknowledgement. */
  predicate Concludes(a: Attempt, ack: Option<Plan>, failure: Option<Failure>, r: Receipt) {
    && (r.status == TargetRejected <==> failure == Some(RejectedByTarget))
    && (r.status == UnavailableSlot <==> failure.None? && a.channel == Some(SimulatedToolResult))
    && (r.status == Applied <==> failure.None? && a.channel != Some(SimulatedToolResult) && ack.Some? && ack == a.plan)
    && (r.status == DeliveryUnknown <==>
          || failure == Some(OutcomeUnknown)
          || (failure.None? && a.channel != Some(SimulatedToolResult) && (ack.None? || ack != a.plan)))
    && (r.evidence == TargetAcknowledgement <==> r.status == Applied)
    && (r.evidence == Unconfirmed <==> r.status == DeliveryUnknown)
    && (r.evidence == NoEvidence <==> r.status == TargetRejected || r.status == UnavailableSlot)
    && r.content == (if r.status == Applied && ack.Some? then Some(ack.value.content) else None)
    && r.correlation == None
  }

  /** An attempt that has its receipt keeps it; any other is concluded by what the target answered. */
  lemma FinishConcludes(d: Delivery, i: nat, ack: Option<Plan>, failure: Option<Failure>)
    requires i < |d.attempts|
    ensures var after := Finish(d, i, ack, failure);
            && after.active == (if d.active == Some(i) then None else d.active)
            && (d.attempts[i].receipt.Some? ==> after == d.(active := after.active))
            && (d.attempts[i].receipt.None? ==>
                  && |after.attempts| == |d.attempts| && after.attempts[i].receipt.Some?
                  && var r := after.attempts[i].receipt.value;
                     Receipted(d, after, i, r) && r.attempt == i && Concludes(d.attempts[i], ack, failure, r))
  {
    ConclusionIs(d.attempts[i], ack, failure);
  }

  lemma ConclusionIs(a: Attempt, ack: Option<Plan>, failure: Option<Failure>)
    ensures var (status, evidence) := Conclusion(a, ack, failure);
            var content := if status.Applied? && a.plan.Some? then Some(a.plan.value.content) else None;
            forall i: nat :: Concludes(a, ack, failure, Receipt(i, status, evidence, content, None))
  {
    assert failure.Some? ==> failure.value.RejectedByTarget? || failure.value.OutcomeUnknown?;
  }

  /** What the slots of a surface offer for the name in a payload. */
  predicate Offers(slot: Slot, channel: Channel, name: nat) {
    if channel == UploadedDocument then slot.DocumentSlot? && slot.name == name else slot.id == name
  }

  predicate FirstOffer(slots: seq<Slot>, channel: Channel, name: nat, k: nat) {
    k < |slots| && Offers(slots[k], channel, name) && forall j :: 0 <= j < k ==> !Offers(slots[j], channel, name)
  }

  lemma {:induction false} SlotIsFirst(slots: seq<Slot>, channel: Channel, name: nat)
    ensures match FindSlot(slots, channel, name)
            case None => forall k :: 0 <= k < |slots| ==> !Offers(slots[k], channel, name)
            case Some(slot) => exists k: nat :: FirstOffer(slots, channel, name, k) && slots[k] == slot
  {
    if slots != [] {
      SlotIsFirst(slots[1..], channel, name);
      if Offers(slots[0], channel, name) {
        assert FirstOffer(slots, channel, name, 0);
      } else if FindSlot(slots, channel, name).Some? {
        var k: nat :| FirstOffer(slots[1..], channel, name, k) && slots[1..][k] == FindSlot(slots, channel, name).value;
        assert FirstOffer(slots, channel, name, k + 1);
      }
    }
  }

  /** Why a document is turned down at once. */
  ghost predicate TurnedDown(d: Delivery, document: Document, status: Status) {
    match document
    case Malformed => status == MalformedAction
    case Action(channel, payload) =>
      || (channel !in d.surfaces && status == UnsupportedSurface)
      || (channel in d.surfaces && payload.None? && status == MalformedAction)
      || (channel in d.surfaces && payload.Some? && channel != UserMessage && status == UnavailableSlot
          && forall k :: 0 <= k < |d.surfaces[channel]| ==> !Offers(d.surfaces[channel][k], channel, payload.value.slot))
  }

  /** What is planned for a document that can be delivered. */
  ghost predicate Planned(d: Delivery, document: Document, a: Attempt) {
    && document.Action? && document.channel in d.surfaces && document.payload.Some?
    && var channel, payload := document.channel, document.payload.value;
       && a.channel == Some(channel) && a.receipt.None? && a.matches == 0
       && (if channel == UserMessage then a.slot.None?
           else exists k: nat :: FirstOffer(d.surfaces[channel], channel, payload.slot, k) && a.slot == Some(d.surfaces[channel][k]))
       && a.plan == Some(Plan(|d.attempts|, channel, if a.slot.Some? then Some(a.slot.value.id) else None, payload.content))
  }

  /** A new attempt is turned down with a receipt that says why, or becomes the active one with its plan. */
  lemma PrepareAnswers(d: Delivery, document: Document)
    ensures match Prepare(d, document)
            case AlreadyActive => d.active.Some?
            case LimitReached => d.active.None? && |d.records| >= 1000
            case NewAttempt(after, i) =>
              && d.active.None? && |d.records| < 1000 && i == |d.attempts|
              && |after.attempts| == i + 1 && after.attempts[..i] == d.attempts && after.surfaces == d.surfaces
              && var a := after.attempts[i];
                 if a.receipt.Some? then
                   var status := a.receipt.value.status;
                   && TurnedDown(d, document, status) && after.active.None?
                   && a.receipt.value == Receipt(i, status, NoEvidence, None, None)
                   && a == Attempt(if document.Action? then Some(document.channel) else None, None, None, 0, a.receipt)
                   && after.records == d.records + [Numbered(|d.records| + 1, a.receipt.value)]
                 else
                   Planned(d, document, a) && after.active == Some(i) && after.records == d.records
  {
    if document.Action? && document.channel in d.surfaces && document.payload.Some? {
      SlotIsFirst(d.surfaces[document.channel], document.channel, document.payload.value.slot);
    }
  }
}
