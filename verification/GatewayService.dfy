/** The objects behind the gateway: deliveries, the episode's effects, and the adapter that reads them. */
module GatewayService {
  import opened Prelude
  import opened JsonTree
  import opened NumberedLogs
  import opened Interventions
  import opened Gateway
  import opened TraceCursors
  import InferenceContracts

  class InterventionDelivery {
    const surfaces: map<Channel, seq<Slot>>
    var attempts: seq<Attempt>
    var active: Option<nat>
    var records: seq<Numbered<Receipt>>

    function Value(): Delivery
      reads this
    {
      Delivery(surfaces, attempts, active, records)
    }

    constructor (surfaces: map<Channel, seq<Slot>>)
      ensures Value() == Delivery(surfaces, [], None, [])
    {
      this.surfaces := surfaces;
      attempts := [];
      active := None;
      records := [];
    }

    method RecordReceipt(i: nat, status: Status, evidence: Evidence, correlation: Option<nat>)
      requires i < |attempts|
      modifies this`attempts, this`records
      ensures Value() == Record(old(Value()), i, status, evidence, correlation)
    {
      var a := attempts[i];
      if a.receipt.Some? {
        return;
      }
      var content := None;
      if status.Applied? && a.plan.Some? {
        content := Some(a.plan.value.content);
      }
      var receipt := Receipt(i, status, evidence, content, correlation);
      attempts := attempts[i := a.(receipt := Some(receipt))];
      records := records + [Numbered(|records| + 1, receipt)];
    }

    method PrepareDelivery(document: Document) returns (r: Prepared)
      modifies this
      ensures r == Prepare(old(Value()), document)
      ensures Value() == if r.NewAttempt? then r.delivery else old(Value())
    {
      if active.Some? {
        return AlreadyActive;
      }
      if |records| >= RECEIPT_LIMIT {
        return LimitReached;
      }
      var i := |attempts|;
      var channel := if document.Action? then Some(document.channel) else None;
      var verdict := Examine(surfaces, document);
      match verdict {
        case Reject(status) =>
          attempts := attempts + [Attempt(channel, None, None, 0, None)];
          RecordReceipt(i, status, NoEvidence, None);
        case Deliver(slot) =>
          attempts := attempts + [Attempt(channel, Some(PlanFor(i, document, slot)), slot, 0, None)];
          active := Some(i);
      }
      r := NewAttempt(Value(), i);
    }

    method OverlayResponse(effect: Effect, response: Response, deliveryId: Option<nat>) returns (r: Overlaid)
      modifies this`attempts, this`records
      ensures (Value(), r) == Overlay(old(Value()), effect, response, deliveryId)
    {
      if !Addressed(Value(), effect, deliveryId) {
        return Shown(response);
      }
      var i := active.value;
      var slot := attempts[i].slot.value;
      var matched := ArgumentsMatch(slot.match_, effect.arguments);
      if matched.None? {
        return Raised;
      }
      if !matched.value {
        return Shown(response);
      }
      attempts := attempts[i := attempts[i].(matches := attempts[i].matches + 1)];
      if attempts[i].matches != slot.occurrence || !response.success {
        return Shown(response);
      }
      var leaf := At(response.result, slot.path);
      if leaf.None? || !leaf.value.Text? {
        return Shown(response);
      }
      var result := Put(response.result, slot.path, Text(attempts[i].plan.value.content));
      RecordReceipt(i, Applied, GatewayToolResponse, Some(effect.correlation));
      r := Shown(response.(result := result));
    }

    method FinishDelivery(i: nat, ack: Option<Plan>, failure: Option<Failure>)
      requires i < |attempts|
      modifies this
      ensures Value() == Finish(old(Value()), i, ack, failure)
      ensures old(attempts)[i].receipt.None? ==>
                && |attempts| == |old(attempts)| && attempts[i].receipt.Some?
                && Receipted(old(Value()), Value(), i, attempts[i].receipt.value)
                && Concludes(old(attempts)[i], ack, failure, attempts[i].receipt.value)
      ensures old(attempts)[i].receipt.Some? ==> attempts == old(attempts) && records == old(records)
      ensures active == if old(active) == Some(i) then None else old(active)
    {
      FinishConcludes(Value(), i, ack, failure);
      var (status, evidence) := Conclusion(attempts[i], ack, failure);
      RecordReceipt(i, status, evidence, None);
      if active == Some(i) {
        active := None;
      }
    }
  }

  class GatewayEpisode {
    const engine: Engine
    const interventions: InterventionDelivery
    var world: nat
    var draining: bool
    var sequence: nat
    var idempotency: map<nat, (Fingerprint, Response)>
    var auditEvents: seq<Numbered<Entry>>

    function Value(): Episode
      reads this, interventions
    {
      Episode(world, draining, sequence, idempotency, auditEvents, interventions.Value())
    }

    constructor (engine: Engine, interventions: InterventionDelivery)
      ensures this.engine == engine && this.interventions == interventions
      ensures Value() == Gateway.Begin(engine, interventions.surfaces).(delivery := interventions.Value())
    {
      this.engine := engine;
      this.interventions := interventions;
      world := engine.seed;
      draining := false;
      sequence := 0;
      idempotency := map[];
      auditEvents := [];
    }

    /** One effect under the episode's lock. */
    method ProcessEffect(effect: Effect, deliveryId: Option<nat>) returns (r: Reply)
      modifies this, interventions`attempts, interventions`records
      ensures (Value(), r) == ProcessTx(engine, old(Value()), effect, deliveryId)
    {
      if draining {
        return Draining;
      }
      var fingerprint := Fingerprint(effect, deliveryId);
      if effect.correlation in idempotency {
        var previous := idempotency[effect.correlation];
        return if previous.0 == fingerprint then Answer(previous.1) else Conflict;
      }
      var (after, outcome) := engine.step(world, effect);
      world := after;
      sequence := sequence + 1;
      auditEvents := auditEvents + [Numbered(sequence, Entry(effect, outcome))];
      var shown := interventions.OverlayResponse(effect, outcome, deliveryId);
      if shown.Raised? {
        return OverlayFailed;
      }
      idempotency := idempotency[effect.correlation := (fingerprint, shown.response)];
      r := Answer(shown.response);
    }

    method Reset()
      modifies this, interventions
      ensures Value() == ResetTx(engine, old(Value()))
    {
      var active := interventions.active;
      if active.Some? && active.value < |interventions.attempts| {
        interventions.FinishDelivery(active.value, None, Some(OutcomeUnknown));
      }
      world := engine.seed;
      idempotency := map[];
      auditEvents := [];
      sequence := 0;
      draining := false;
    }

    method BeginDraining() returns (events: seq<Numbered<Entry>>)
      modifies this`draining
      ensures Value() == old(Value()).(draining := true) && events == auditEvents
    {
      draining := true;
      events := auditEvents;
    }
  }

  class TargetAdapter {
    var traceCursor: nat
    var inferenceCursor: nat
    var interventionCursor: nat

    function Value(): Cursors
      reads this
    {
      Cursors(traceCursor, inferenceCursor, interventionCursor)
    }

    constructor ()
      ensures Value() == Cursors(0, 0, 0)
    {
      traceCursor := 0;
      inferenceCursor := 0;
      interventionCursor := 0;
    }

    /**
     * The three lists are what the gateway answered to the present cursors;
     * the cursors move exactly as for that answer, and what is returned is what was received.
     */
    method DrainPrivateTrace(t: Target, delivered: Delivered) returns (handedOn: Option<Seen>)
      requires Value() == t.cursors
      modifies this
      ensures Value() == TraceNext(t, delivered).cursors
      ensures var was, now := t.seen, TraceNext(t, delivered).seen;
              match handedOn
              case None => now == was
              case Some(batch) => now == Seen(was.events + batch.events, was.inference + batch.inference,
                                              was.interventions + batch.interventions)
    {
      if delivered.Lost? {
        return None;
      }
      var receipts := Newer(t.episode.delivery.records, interventionCursor);
      if receipts != [] {
        interventionCursor := MaxSequence(receipts, 0);
      }
      var records := Newer(t.inference, inferenceCursor);
      if records != [] {
        if delivered.RecorderFails? {
          return None;
        }
        inferenceCursor := MaxSequence(records, 0);
      }
      var events := Newer(t.episode.audit, traceCursor);
      if events != [] {
        traceCursor := MaxSequence(events, 0);
      }
      handedOn := Some(Seen(events, records, receipts));
    }

    /** Only the trace cursor goes back. */
    method AcknowledgeReset()
      modifies this`traceCursor
      ensures Value() == old(Value()).(trace := 0)
    {
      traceCursor := 0;
    }
  }
}
