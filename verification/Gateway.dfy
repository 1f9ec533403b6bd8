/** Effects executed against the virtual world once per correlation id, with an audit log of world truth. */
module Gateway {
  import opened Prelude
  import opened JsonTree
  import opened NumberedLogs
  import opened Interventions

  /** World states are numbered; the engine decides an effect and moves the world. */
  datatype Engine = Engine(step: (nat, Effect) -> (nat, Response), seed: nat)

  datatype Entry = Entry(effect: Effect, outcome: Response)

  /** A fingerprint covers the effect without its own id, and the delivery it names. */
  datatype Fingerprint = Fingerprint(effect: Effect, deliveryId: Option<nat>)

  datatype Episode = Episode(world: nat, draining: bool, sequence: nat,
                             idempotency: map<nat, (Fingerprint, Response)>,
                             audit: seq<Numbered<Entry>>, delivery: Delivery)

  /** `OverlayFailed` is the error of a comparison that cannot be encoded. */
  datatype Reply = Draining | Conflict | OverlayFailed | Answer(response: Response)

  /** `permitted` is the route check, made before the lock is taken. */
  datatype Call =
    | Process(effect: Effect, deliveryId: Option<nat>, permitted: bool)
    | BeginDelivery(document: Document)
    | EndDelivery(attempt: nat, ack: Option<Plan>, failure: Option<Failure>)
    | Drain

  function Begin(engine: Engine, surfaces: map<Channel, seq<Slot>>): Episode {
    Episode(engine.seed, false, 0, map[], [], Delivery(surfaces, [], None, []))
  }

  /** The engine runs and the audit entry is appended before the overlay, the stored response after it. */
  function Execute(engine: Engine, e: Episode, effect: Effect, deliveryId: Option<nat>): (Episode, Reply) {
    var (world, outcome) := engine.step(e.world, effect);
    var (delivery, shown) := Overlay(e.delivery, effect, outcome, deliveryId);
    var audited := e.(world := world, sequence := e.sequence + 1,
                      audit := e.audit + [Numbered(e.sequence + 1, Entry(effect, outcome))], delivery := delivery);
    if shown.Raised? then
      (audited, OverlayFailed)
    else
      (audited.(idempotency := e.idempotency[effect.correlation := (Fingerprint(effect, deliveryId), shown.response)]),
       Answer(shown.response))
  }

  function ProcessTx(engine: Engine, e: Episode, effect: Effect, deliveryId: Option<nat>): (Episode, Reply) {
    if e.draining then
      (e, Draining)
    else if effect.correlation in e.idempotency then
      var (fingerprint, response) := e.idempotency[effect.correlation];
      (e, if fingerprint == Fingerprint(effect, deliveryId) then Answer(response) else Conflict)
    else
      Execute(engine, e, effect, deliveryId)
  }

  function CallTx(engine: Engine, e: Episode, call: Call): Episode {
    match call
    case Process(effect, deliveryId, permitted) => if permitted then ProcessTx(engine, e, effect, deliveryId).0 else e
    case BeginDelivery(document) =>
      (match Prepare(e.delivery, document)
       case NewAttempt(delivery, _) => e.(delivery := delivery)
       case _ => e)
    case EndDelivery(i, ack, failure) =>
      if i < |e.delivery.attempts| then e.(delivery := Finish(e.delivery, i, ack, failure)) else e
    case Drain => e.(draining := true)
  }

  /** A reset ends a delivery in progress and clears everything but the delivery records. */
  function ResetTx(engine: Engine, e: Episode): Episode {
    var d := e.delivery;
    var ended := if d.active.Some? && d.active.value < |d.attempts|
                 then Finish(d, d.active.value, None, Some(OutcomeUnknown)) else d;
    Episode(engine.seed, false, 0, map[], [], ended)
  }

  function Run(engine: Engine, e: Episode, calls: seq<Call>): Episode
    decreases |calls|
  {
    if calls == [] then e else Run(engine, CallTx(engine, e, calls[0]), calls[1..])
  }

  // ----- the invariant -----

  /** The world reached by the audited effects alone, each with the outcome the engine gave it. */
  ghost predicate Replays(engine: Engine, audit: seq<Numbered<Entry>>, world: nat)
    decreases |audit|
  {
    if audit == [] then
      world == engine.seed
    else
      var entry := audit[|audit| - 1].item;
      exists before: nat ::
        Replays(engine, audit[..|audit| - 1], before) && engine.step(before, entry.effect) == (world, entry.outcome)
  }

  /** How many audited effects carried this correlation id. */
  function Executions(audit: seq<Numbered<Entry>>, correlation: nat): nat {
    if audit == [] then
      0
    else
      Executions(audit[..|audit| - 1], correlation)
      + if audit[|audit| - 1].item.effect.correlation == correlation then 1 else 0
  }

  /** A stored response stands for an audited effect. */
  ghost predicate StoredIsAudited(e: Episode) {
    forall c :: c in e.idempotency ==>
      && e.idempotency[c].0.effect.correlation == c
      && Executions(e.audit, c) >= 1
  }

  ghost predicate EpisodeInv(engine: Engine, e: Episode) {
    && IsNumbered(e.audit)
    && e.sequence == |e.audit|
    && Replays(engine, e.audit, e.world)
    && StoredIsAudited(e)
    && DeliveryInv(e.delivery)
  }

  /** Every audited effect has its response stored, and was executed once. */
  ghost predicate ExactlyOnce(e: Episode) {
    forall c :: Executions(e.audit, c) == if c in e.idempotency then 1 else 0
  }

  lemma BeginInv(engine: Engine, surfaces: map<Channel, seq<Slot>>)
    requires SurfacesValid(surfaces)
    ensures EpisodeInv(engine, Begin(engine, surfaces)) && ExactlyOnce(Begin(engine, surfaces))
  {
  }

  lemma ExecuteGrows(engine: Engine, e: Episode, effect: Effect, deliveryId: Option<nat>)
    requires EpisodeInv(engine, e)
    ensures var r := Execute(engine, e, effect, deliveryId).0;
            && r.audit[..|r.audit| - 1] == e.audit && |r.audit| == |e.audit| + 1
            && r.audit[|e.audit|].item == Entry(effect, engine.step(e.world, effect).1)
            && forall c :: Executions(r.audit, c)
                           == Executions(e.audit, c) + if c == effect.correlation then 1 else 0
  {
    var r := Execute(engine, e, effect, deliveryId).0;
    assert r.audit[..|e.audit|] == e.audit;
  }

  lemma ExecuteKeeps(engine: Engine, e: Episode, effect: Effect, deliveryId: Option<nat>)
    requires EpisodeInv(engine, e)
    ensures EpisodeInv(engine, Execute(engine, e, effect, deliveryId).0)
  {
    var (world, outcome) := engine.step(e.world, effect);
    var r := Execute(engine, e, effect, deliveryId).0;
    ExecuteGrows(engine, e, effect, deliveryId);
    OverlayKeeps(e.delivery, effect, outcome, deliveryId);
    assert Replays(engine, r.audit[..|r.audit| - 1], e.world) && engine.step(e.world, effect) == (world, outcome);
  }

  lemma CallKeeps(engine: Engine, e: Episode, call: Call)
    requires EpisodeInv(engine, e)
    ensures EpisodeInv(engine, CallTx(engine, e, call))
  {
    match call
    case Process(effect, deliveryId, permitted) =>
      ExecuteKeeps(engine, e, effect, deliveryId);
    case BeginDelivery(document) =>
      if Prepare(e.delivery, document).NewAttempt? {
        PrepareKeeps(e.delivery, document);
      }
    case EndDelivery(i, ack, failure) =>
      if i < |e.delivery.attempts| {
        FinishKeeps(e.delivery, i, ack, failure);
      }
    case Drain =>
  }

  /** A reset starts a new log, and keeps every receipt already given. */
  lemma ResetKeeps(engine: Engine, e: Episode)
    requires EpisodeInv(engine, e)
    ensures var r := ResetTx(engine, e);
            && EpisodeInv(engine, r) && ExactlyOnce(r) && r.audit == [] && !r.draining
            && r.delivery.active.None?
            && e.delivery.records <= r.delivery.records
            && (Awaiting(e.delivery) ==>
                  && r.delivery.attempts[e.delivery.active.value].receipt.Some?
                  && r.delivery.attempts[e.delivery.active.value].receipt.value.status == DeliveryUnknown)
  {
    var d := e.delivery;
    if d.active.Some? {
      FinishKeeps(d, d.active.value, None, Some(OutcomeUnknown));
    }
  }

  lemma {:induction false} RunKeeps(engine: Engine, e: Episode, calls: seq<Call>)
    requires EpisodeInv(engine, e)
    ensures EpisodeInv(engine, Run(engine, e, calls))
    decreases |calls|
  {
    if calls != [] {
      CallKeeps(engine, e, calls[0]);
      RunKeeps(engine, CallTx(engine, e, calls[0]), calls[1..]);
    }
  }

  // ----- main results -----

  lemma StoredStays(engine: Engine, e: Episode, call: Call, correlation: nat)
    requires EpisodeInv(engine, e) && correlation in e.idempotency
    ensures var r := CallTx(engine, e, call);
            && correlation in r.idempotency && r.idempotency[correlation] == e.idempotency[correlation]
            && Executions(r.audit, correlation) == Executions(e.audit, correlation)
  {
    if call.Process? {
      ExecuteGrows(engine, e, call.effect, call.deliveryId);
    }
  }

  /**
   * Until the next reset a stored response is what every repeat gets, anything else under its id is refused,
   * and the world is not moved again.
   */
  lemma {:induction false} StoredForever(engine: Engine, e: Episode, calls: seq<Call>, correlation: nat)
    requires EpisodeInv(engine, e) && correlation in e.idempotency
    ensures var r := Run(engine, e, calls);
            var stored := e.idempotency[correlation];
            && correlation in r.idempotency && r.idempotency[correlation] == stored
            && Executions(r.audit, correlation) == Executions(e.audit, correlation)
            && ProcessTx(engine, r, stored.0.effect, stored.0.deliveryId)
               == (r, if r.draining then Draining else Answer(stored.1))
            && forall effect: Effect, deliveryId: Option<nat> ::
                 effect.correlation == correlation && (effect != stored.0.effect || deliveryId != stored.0.deliveryId) ==>
                   ProcessTx(engine, r, effect, deliveryId) == (r, if r.draining then Draining else Conflict)
    decreases |calls|
  {
    if calls != [] {
      CallKeeps(engine, e, calls[0]);
      StoredStays(engine, e, calls[0], correlation);
      StoredForever(engine, CallTx(engine, e, calls[0]), calls[1..], correlation);
    }
  }

  /** An effect under an id without a stored response is executed, audited and overlaid, and its answer is stored. */
  lemma NewEffectIsExecuted(engine: Engine, e: Episode, effect: Effect, deliveryId: Option<nat>)
    requires EpisodeInv(engine, e) && !e.draining && effect.correlation !in e.idempotency
    ensures var (r, reply) := ProcessTx(engine, e, effect, deliveryId);
            var (world, outcome) := engine.step(e.world, effect);
            var shown := Overlay(e.delivery, effect, outcome, deliveryId).1;
            && r.world == world && r.audit == e.audit + [Numbered(|e.audit| + 1, Entry(effect, outcome))]
            && r.delivery == Overlay(e.delivery, effect, outcome, deliveryId).0
            && (reply == OverlayFailed <==> shown.Raised?)
            && (shown.Raised? ==> r.idempotency == e.idempotency)
            && (shown.Shown? ==>
                  && reply == Answer(shown.response)
                  && r.idempotency == e.idempotency[effect.correlation := (Fingerprint(effect, deliveryId), shown.response)])
  {
  }

  // ----- receipts -----

  /** This call, made in this state, is what the receipt of the i-th attempt rests on. */
  ghost predicate Grounds(engine: Engine, e: Episode, call: Call, i: nat, plan: Option<Plan>, r: Receipt) {
    && (r.evidence == TargetAcknowledgement ==> plan.Some? && call == EndDelivery(i, plan, None))
    && (r.evidence == GatewayToolResponse ==>
          && call.Process? && call.permitted && !e.draining && call.effect.correlation !in e.idempotency
          && r.correlation == Some(call.effect.correlation) && e.delivery.active == Some(i)
          && Replaces(e.delivery, call.effect, engine.step(e.world, call.effect).1, call.deliveryId))
    && (r.status == TargetRejected ==> call.EndDelivery? && call.attempt == i && call.failure == Some(RejectedByTarget))
  }

  predicate HasReceipt(e: Episode, i: nat) {
    i < |e.delivery.attempts| && e.delivery.attempts[i].receipt.Some?
  }

  /** An attempt keeps its plan, and its receipt once it has one. */
  lemma AttemptStays(engine: Engine, e: Episode, call: Call, i: nat)
    requires EpisodeInv(engine, e) && i < |e.delivery.attempts|
    ensures var r := CallTx(engine, e, call);
            && i < |r.delivery.attempts|
            && r.delivery.attempts[i].plan == e.delivery.attempts[i].plan
            && (e.delivery.attempts[i].receipt.Some? ==> r.delivery.attempts[i].receipt == e.delivery.attempts[i].receipt)
  {
    if call.Process? {
      OverlayStays(e.delivery, call.effect, engine.step(e.world, call.effect).1, call.deliveryId, i);
    }
  }

  lemma OverlayStays(d: Delivery, effect: Effect, response: Response, deliveryId: Option<nat>, i: nat)
    requires i < |d.attempts|
    ensures var r := Overlay(d, effect, response, deliveryId).0;
            && i < |r.attempts| && r.attempts[i].plan == d.attempts[i].plan
            && (d.attempts[i].receipt.Some? ==> r.attempts[i].receipt == d.attempts[i].receipt)
  {
  }

  lemma ProcessGrounds(engine: Engine, e: Episode, effect: Effect, deliveryId: Option<nat>, i: nat)
    requires EpisodeInv(engine, e) && !HasReceipt(e, i)
    ensures var call := Process(effect, deliveryId, true);
            var r := CallTx(engine, e, call);
            HasReceipt(r, i) ==> Grounds(engine, e, call, i, r.delivery.attempts[i].plan, r.delivery.attempts[i].receipt.value)
  {
    OverlayTouchesOnlyItsPath(e.delivery, effect, engine.step(e.world, effect).1, deliveryId);
  }

  lemma CallGrounds(engine: Engine, e: Episode, call: Call, i: nat)
    requires EpisodeInv(engine, e) && !HasReceipt(e, i)
    ensures var r := CallTx(engine, e, call);
            HasReceipt(r, i) ==> Grounds(engine, e, call, i, r.delivery.attempts[i].plan, r.delivery.attempts[i].receipt.value)
  {
    match call
    case Process(effect, deliveryId, permitted) =>
      if permitted {
        ProcessGrounds(engine, e, effect, deliveryId, i);
      }
    case BeginDelivery(document) => PrepareAnswers(e.delivery, document);
    case EndDelivery(j, ack, failure) =>
      if j < |e.delivery.attempts| {
        FinishConcludes(e.delivery, j, ack, failure);
      }
    case Drain =>
  }

  /** An end of a delivery without a receipt gives it one, by what the target answered. */
  lemma EndGivesReceipt(engine: Engine, e: Episode, i: nat, ack: Option<Plan>, failure: Option<Failure>)
    requires i < |e.delivery.attempts| && !HasReceipt(e, i)
    ensures var r := CallTx(engine, e, EndDelivery(i, ack, failure));
            && HasReceipt(r, i) && Concludes(e.delivery.attempts[i], ack, failure, r.delivery.attempts[i].receipt.value)
            && r.delivery.active != Some(i)
            && r == e.(delivery := r.delivery)
  {
    FinishConcludes(e.delivery, i, ack, failure);
  }

  /** Once draining, an episode executes nothing until the next reset. */
  lemma {:induction false} DrainingForever(engine: Engine, e: Episode, calls: seq<Call>, effect: Effect, deliveryId: Option<nat>)
    requires e.draining
    ensures var r := Run(engine, e, calls);
            && r == e.(delivery := r.delivery)
            && ProcessTx(engine, r, effect, deliveryId) == (r, Draining)
    decreases |calls|
  {
    if calls != [] {
      DrainingForever(engine, CallTx(engine, e, calls[0]), calls[1..], effect, deliveryId);
    }
  }

  lemma DrainStopsEffects(engine: Engine, e: Episode, calls: seq<Call>, effect: Effect, deliveryId: Option<nat>)
    ensures var r := Run(engine, CallTx(engine, e, Drain), calls);
            && r.world == e.world && r.audit == e.audit
            && ProcessTx(engine, r, effect, deliveryId) == (r, Draining)
  {
    DrainingForever(engine, CallTx(engine, e, Drain), calls, effect, deliveryId);
  }

  lemma {:induction false} RunLast(engine: Engine, e: Episode, calls: seq<Call>)
    requires calls != []
    ensures var n := |calls| - 1; Run(engine, e, calls) == CallTx(engine, Run(engine, e, calls[..n]), calls[n])
    decreases |calls|
  {
    if |calls| > 1 {
      var n := |calls| - 1;
      assert calls[1..][..n - 1] == calls[..n][1..];
      RunLast(engine, CallTx(engine, e, calls[0]), calls[1..]);
    }
  }

  /**
   * Every receipt given in a run rests on one of its calls: an acknowledgement by the target on an end of that delivery
   * that carried its own plan, a replaced tool result on an effect that was its declared occurrence,
   * a rejection on an end that reported one.
   */
  lemma {:induction false} ReceiptsAreGrounded(engine: Engine, e: Episode, calls: seq<Call>, i: nat)
    requires EpisodeInv(engine, e) && !HasReceipt(e, i) && HasReceipt(Run(engine, e, calls), i)
    ensures var a := Run(engine, e, calls).delivery.attempts[i];
            exists k :: 0 <= k < |calls|
                        && Grounds(engine, Run(engine, e, calls[..k]), calls[k], i, a.plan, a.receipt.value)
    decreases |calls|
  {
    var n := |calls| - 1;
    var before := Run(engine, e, calls[..n]);
    RunLast(engine, e, calls);
    RunKeeps(engine, e, calls[..n]);
    if HasReceipt(before, i) {
      AttemptStays(engine, before, calls[n], i);
      ReceiptsAreGrounded(engine, e, calls[..n], i);
      var a := before.delivery.attempts[i];
      var k :| 0 <= k < n && Grounds(engine, Run(engine, e, calls[..n][..k]), calls[..n][k], i, a.plan, a.receipt.value);
      assert calls[..n][..k] == calls[..k];
    } else {
      CallGrounds(engine, before, calls[n], i);
    }
  }

  /** The overlay's comparison does not raise for this call, whatever delivery is active. */
  predicate Comparable(d: Delivery, effect: Effect) {
    && (forall key :: key in effect.arguments ==> Encodable(effect.arguments[key]))
    && forall i, k :: 0 <= i < |d.attempts| && d.attempts[i].slot.Some? && d.attempts[i].slot.value.ToolSlot?
                      && 0 <= k < |d.attempts[i].slot.value.match_| ==>
         Encodable(d.attempts[i].slot.value.match_[k].1)
  }

  lemma ComparableDoesNotRaise(d: Delivery, effect: Effect, response: Response, deliveryId: Option<nat>)
    requires Comparable(d, effect)
    ensures Overlay(d, effect, response, deliveryId).1.Shown?
  {
    if Addressed(d, effect, deliveryId) {
      var declared := d.attempts[d.active.value].slot.value.match_;
      if ArgumentsMatch(declared, effect.arguments).None? {
        RaisesOnlyOnUnencodable(declared, effect.arguments);
      }
    }
  }

  /** The call executes its effect and its overlay raises. */
  predicate Raises(engine: Engine, e: Episode, call: Call) {
    call.Process? && call.permitted && ProcessTx(engine, e, call.effect, call.deliveryId).1.OverlayFailed?
  }

  predicate NeverRaises(engine: Engine, e: Episode, calls: seq<Call>)
    decreases |calls|
  {
    calls == [] || (!Raises(engine, e, calls[0]) && NeverRaises(engine, CallTx(engine, e, calls[0]), calls[1..]))
  }

  /** An execution more than the stored responses account for. */
  predicate Unaccounted(e: Episode, correlation: nat) {
    Executions(e.audit, correlation) >= 1 + if correlation in e.idempotency then 1 else 0
  }

  lemma UnaccountedStays(engine: Engine, e: Episode, call: Call, correlation: nat)
    requires EpisodeInv(engine, e) && Unaccounted(e, correlation)
    ensures Unaccounted(CallTx(engine, e, call), correlation)
  {
    if call.Process? {
      ExecuteGrows(engine, e, call.effect, call.deliveryId);
    }
  }

  lemma {:induction false} UnaccountedForever(engine: Engine, e: Episode, calls: seq<Call>, correlation: nat)
    requires EpisodeInv(engine, e) && Unaccounted(e, correlation)
    ensures Unaccounted(Run(engine, e, calls), correlation)
    decreases |calls|
  {
    if calls != [] {
      UnaccountedStays(engine, e, calls[0], correlation);
      CallKeeps(engine, e, calls[0]);
      UnaccountedForever(engine, CallTx(engine, e, calls[0]), calls[1..], correlation);
    }
  }

  lemma OnceStep(engine: Engine, e: Episode, call: Call)
    requires EpisodeInv(engine, e) && ExactlyOnce(e)
    ensures !Raises(engine, e, call) ==> ExactlyOnce(CallTx(engine, e, call))
    ensures Raises(engine, e, call) ==> Unaccounted(CallTx(engine, e, call), call.effect.correlation)
  {
    if call.Process? {
      ExecuteGrows(engine, e, call.effect, call.deliveryId);
    }
  }

  /**
   * Over every run between resets: each audited correlation id was executed once and has its response
   * stored, exactly when no permitted submission along the run executed and had its overlay raise.
   */
  lemma {:induction false} ExactlyOnceIff(engine: Engine, e: Episode, calls: seq<Call>)
    requires EpisodeInv(engine, e) && ExactlyOnce(e)
    ensures ExactlyOnce(Run(engine, e, calls)) <==> NeverRaises(engine, e, calls)
    decreases |calls|
  {
    if calls != [] {
      var next := CallTx(engine, e, calls[0]);
      CallKeeps(engine, e, calls[0]);
      OnceStep(engine, e, calls[0]);
      if Raises(engine, e, calls[0]) {
        var correlation := calls[0].effect.correlation;
        UnaccountedForever(engine, next, calls[1..], correlation);
        assert Executions(Run(engine, e, calls).audit, correlation)
               != if correlation in Run(engine, e, calls).idempotency then 1 else 0;
      } else {
        ExactlyOnceIff(engine, next, calls[1..]);
      }
    }
  }

  /** Each effect submitted in a run can be compared at the moment it is submitted. */
  ghost predicate AllComparable(engine: Engine, e: Episode, calls: seq<Call>)
    decreases |calls|
  {
    calls == [] ||
    (&& (calls[0].Process? ==> Comparable(e.delivery, calls[0].effect))
     && AllComparable(engine, CallTx(engine, e, calls[0]), calls[1..]))
  }

  /** What a caller can see to: values that can be encoded never make an overlay raise. */
  lemma {:induction false} ComparableNeverRaises(engine: Engine, e: Episode, calls: seq<Call>)
    requires AllComparable(engine, e, calls)
    ensures NeverRaises(engine, e, calls)
    decreases |calls|
  {
    if calls != [] {
      var call := calls[0];
      if call.Process? {
        ComparableDoesNotRaise(e.delivery, call.effect, engine.step(e.world, call.effect).1, call.deliveryId);
      }
      ComparableNeverRaises(engine, CallTx(engine, e, call), calls[1..]);
    }
  }

  lemma ExactlyOnceRun(engine: Engine, e: Episode, calls: seq<Call>)
    requires EpisodeInv(engine, e) && ExactlyOnce(e) && AllComparable(engine, e, calls)
    ensures ExactlyOnce(Run(engine, e, calls))
  {
    ComparableNeverRaises(engine, e, calls);
    ExactlyOnceIff(engine, e, calls);
  }

  /**
   * Submitting the same effect twice executes it twice exactly when the first submission ran and its overlay raised.
   */
  lemma RepeatExecutesAgainIff(engine: Engine, e: Episode, effect: Effect, deliveryId: Option<nat>)
    requires EpisodeInv(engine, e)
    ensures var once := ProcessTx(engine, e, effect, deliveryId);
            var twice := ProcessTx(engine, once.0, effect, deliveryId);
            && (|twice.0.audit| > |once.0.audit| <==> once.1.OverlayFailed?)
            && (once.1.OverlayFailed? <==>
                  && !e.draining && effect.correlation !in e.idempotency && Targets(e.delivery, effect, deliveryId)
                  && Incomparable(e.delivery.attempts[e.delivery.active.value].slot.value.match_, effect.arguments))
            && (once.1.Answer? ==> twice == once)
  {
    OverlayTouchesOnlyItsPath(e.delivery, effect, engine.step(e.world, effect).1, deliveryId);
  }

  /** One correlation id, two executions: a declared argument arrives as a value that cannot be encoded. */
  lemma UnencodableArgumentExecutesTwice(engine: Engine)
    ensures var slot := ToolSlot(1, 2, 3, [("id", Number(4))], 1, ["text"]);
            var effect := Effect(9, 2, 3, map["id" := Unencodable]);
            var start := Begin(engine, map[SimulatedToolResult := [slot]]);
            var delivering := CallTx(engine, start, BeginDelivery(Action(SimulatedToolResult, Some(Payload(1, "x")))));
            var once := CallTx(engine, delivering, Process(effect, Some(0), true));
            var twice := CallTx(engine, once, Process(effect, Some(0), true));
            Executions(once.audit, 9) == 1 && Executions(twice.audit, 9) == 2
  {
    var slot := ToolSlot(1, 2, 3, [("id", Number(4))], 1, ["text"]);
    var effect := Effect(9, 2, 3, map["id" := Unencodable]);
    var start := Begin(engine, map[SimulatedToolResult := [slot]]);
    BeginInv(engine, map[SimulatedToolResult := [slot]]);
    var document := Action(SimulatedToolResult, Some(Payload(1, "x")));
    var delivering := CallTx(engine, start, BeginDelivery(document));
    CallKeeps(engine, start, BeginDelivery(document));
    assert Examine(start.delivery.surfaces, document) == Deliver(Some(slot));
    assert Addressed(delivering.delivery, effect, Some(0));
    assert ArgumentsMatch(slot.match_, effect.arguments).None?;
    var once := CallTx(engine, delivering, Process(effect, Some(0), true));
    assert once == Execute(engine, delivering, effect, Some(0)).0;
    ExecuteGrows(engine, delivering, effect, Some(0));
    CallKeeps(engine, delivering, Process(effect, Some(0), true));
    ExecuteGrows(engine, once, effect, Some(0));
  }
}
