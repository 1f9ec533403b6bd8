/** The adapter's three cursors over the gateway's logs, across drains, failures and resets. */
module TraceCursors {
  import opened Prelude
  import opened NumberedLogs
  import opened Interventions
  import opened Gateway
  import InferenceContracts

  datatype Cursors = Cursors(trace: nat, inference: nat, intervention: nat)

  /** What drains have handed on: trace events since the gateway's last reset, the other two ever. */
  datatype Seen = Seen(events: seq<Numbered<Entry>>, inference: seq<Numbered<InferenceContracts.Audit>>,
                       interventions: seq<Numbered<Receipt>>)

  /**
   * Two history variables: `base` is the trace cursor the adapter held once the gateway had last reset,
   * `skipped` says that a failed drain moved the intervention cursor past receipts it did not hand on.
   */
  datatype Target = Target(episode: Episode, inference: seq<Numbered<InferenceContracts.Audit>>,
                           cursors: Cursors, seen: Seen, base: nat, skipped: bool)

  /** A response can be lost on its way back, and the recorder of inference records can fail. */
  datatype Delivered = Arrives | Lost | RecorderFails

  datatype Event =
    | Gate(call: Call)
    | Settle(record: InferenceContracts.Audit)
    | Reset(accepted: bool, arrives: bool)
    | Trace(delivered: Delivered)

  function Begin(engine: Engine, surfaces: map<Channel, seq<Slot>>): Target {
    Target(Gateway.Begin(engine, surfaces), [], Cursors(0, 0, 0), Seen([], [], []), 0, false)
  }

  /** A target that refuses the reset leaves the gateway draining; a lost response leaves the cursor as it was. */
  function ResetNext(engine: Engine, t: Target, accepted: bool, arrives: bool): Target {
    if !accepted then
      t.(episode := t.episode.(draining := true))
    else
      var cursor := if arrives then 0 else t.cursors.trace;
      t.(episode := ResetTx(engine, t.episode), cursors := t.cursors.(trace := cursor),
         seen := t.seen.(events := []), base := cursor)
  }

  /** The intervention cursor moves before the recorder is called, the other two after it. */
  function TraceNext(t: Target, delivered: Delivered): Target {
    var receipts := Newer(t.episode.delivery.records, t.cursors.intervention);
    var records := Newer(t.inference, t.cursors.inference);
    var events := Newer(t.episode.audit, t.cursors.trace);
    if delivered.Lost? then
      t
    else if delivered.RecorderFails? && records != [] then
      t.(cursors := t.cursors.(intervention := Advance(t.cursors.intervention, receipts)),
         skipped := t.skipped || receipts != [])
    else
      t.(cursors := Cursors(Advance(t.cursors.trace, events), Advance(t.cursors.inference, records),
                            Advance(t.cursors.intervention, receipts)),
         seen := Seen(t.seen.events + events, t.seen.inference + records, t.seen.interventions + receipts))
  }

  function Next(engine: Engine, t: Target, e: Event): Target {
    match e
    case Gate(call) => t.(episode := CallTx(engine, t.episode, call))
    case Settle(record) => t.(inference := t.inference + [Numbered(|t.inference| + 1, record)])
    case Reset(accepted, arrives) => ResetNext(engine, t, accepted, arrives)
    case Trace(delivered) => TraceNext(t, delivered)
  }

  function Run(engine: Engine, t: Target, events: seq<Event>): Target
    decreases |events|
  {
    if events == [] then t else Run(engine, Next(engine, t, events[0]), events[1..])
  }

  // ----- the invariant -----

  ghost predicate TraceInv(t: Target) {
    ReadFrom(t.episode.audit, t.base, t.cursors.trace, t.seen.events)
  }

  ghost predicate InferenceInv(t: Target) {
    IsNumbered(t.inference) && ReadFrom(t.inference, 0, t.cursors.inference, t.seen.inference)
  }

  ghost predicate InterventionInv(t: Target) {
    && t.cursors.intervention <= |t.episode.delivery.records|
    && |t.seen.interventions| <= t.cursors.intervention
    && (t.skipped <==> |t.seen.interventions| < t.cursors.intervention)
    && (!t.skipped ==> ReadFrom(t.episode.delivery.records, 0, t.cursors.intervention, t.seen.interventions))
  }

  ghost predicate TargetInv(engine: Engine, t: Target) {
    EpisodeInv(engine, t.episode) && TraceInv(t) && InferenceInv(t) && InterventionInv(t)
  }

  /** Both of the gateway's logs only grow between resets. */
  lemma CallGrowsLogs(engine: Engine, e: Episode, call: Call)
    requires EpisodeInv(engine, e)
    ensures e.audit <= CallTx(engine, e, call).audit
    ensures e.delivery.records <= CallTx(engine, e, call).delivery.records
  {
  }

  lemma GrownReceipts(t: Target, records: seq<Numbered<Receipt>>)
    requires InterventionInv(t) && t.episode.delivery.records <= records
    ensures InterventionInv(t.(episode := t.episode.(delivery := t.episode.delivery.(records := records))))
  {
    if !t.skipped {
      GrownLogKeeps(t.episode.delivery.records, records, 0, t.cursors.intervention, t.seen.interventions);
    }
  }

  lemma GateKeeps(engine: Engine, t: Target, call: Call)
    requires TargetInv(engine, t)
    ensures TargetInv(engine, Next(engine, t, Gate(call)))
  {
    var e := CallTx(engine, t.episode, call);
    CallKeeps(engine, t.episode, call);
    CallGrowsLogs(engine, t.episode, call);
    GrownLogKeeps(t.episode.audit, e.audit, t.base, t.cursors.trace, t.seen.events);
    GrownReceipts(t, e.delivery.records);
  }

  lemma SettleKeeps(engine: Engine, t: Target, record: InferenceContracts.Audit)
    requires TargetInv(engine, t)
    ensures TargetInv(engine, Next(engine, t, Settle(record)))
  {
    var log := t.inference + [Numbered(|t.inference| + 1, record)];
    GrownLogKeeps(t.inference, log, 0, t.cursors.inference, t.seen.inference);
  }

  lemma ResetNextKeeps(engine: Engine, t: Target, accepted: bool, arrives: bool)
    requires TargetInv(engine, t)
    ensures TargetInv(engine, ResetNext(engine, t, accepted, arrives))
  {
    ResetKeeps(engine, t.episode);
    GrownReceipts(t, ResetTx(engine, t.episode).delivery.records);
  }

  lemma InterventionReadKeeps(t: Target, delivered: Delivered)
    requires IsNumbered(t.episode.delivery.records) && InterventionInv(t)
    ensures InterventionInv(TraceNext(t, delivered))
  {
    var records, cursor := t.episode.delivery.records, t.cursors.intervention;
    NewerIsSuffix(records, cursor);
    AdvanceToEnd(records, cursor);
    if !t.skipped {
      ReadKeeps(records, 0, cursor, t.seen.interventions);
    }
  }

  lemma TraceKeeps(engine: Engine, t: Target, delivered: Delivered)
    requires TargetInv(engine, t)
    ensures TargetInv(engine, TraceNext(t, delivered))
  {
    ReadKeeps(t.episode.audit, t.base, t.cursors.trace, t.seen.events);
    ReadKeeps(t.inference, 0, t.cursors.inference, t.seen.inference);
    InterventionReadKeeps(t, delivered);
  }

  lemma {:induction false} TargetRun(engine: Engine, t: Target, events: seq<Event>)
    requires TargetInv(engine, t)
    ensures TargetInv(engine, Run(engine, t, events))
    decreases |events|
  {
    if events != [] {
      match events[0] {
        case Gate(call) => GateKeeps(engine, t, call);
        case Settle(record) => SettleKeeps(engine, t, record);
        case Reset(accepted, arrives) => ResetNextKeeps(engine, t, accepted, arrives);
        case Trace(delivered) => TraceKeeps(engine, t, delivered);
      }
      TargetRun(engine, Next(engine, t, events[0]), events[1..]);
    }
  }

  // ----- main results -----

  /** The state before the k-th event of a run. */
  function Before(engine: Engine, surfaces: map<Channel, seq<Slot>>, events: seq<Event>, k: nat): Target
    requires k <= |events|
  {
    Run(engine, Begin(engine, surfaces), events[..k])
  }

  lemma {:induction false} RunLast(engine: Engine, t: Target, events: seq<Event>)
    requires events != []
    ensures var n := |events| - 1; Run(engine, t, events) == Next(engine, Run(engine, t, events[..n]), events[n])
    decreases |events|
  {
    if |events| > 1 {
      var n := |events| - 1;
      assert events[1..][..n - 1] == events[..n][1..];
      RunLast(engine, Next(engine, t, events[0]), events[1..]);
    }
  }

  /** The recorder fails while both an inference record and a receipt are unread. */
  predicate Skips(t: Target, e: Event) {
    && e == Trace(RecorderFails)
    && |t.inference| > t.cursors.inference
    && |t.episode.delivery.records| > t.cursors.intervention
  }

  ghost predicate NeverSkips(engine: Engine, surfaces: map<Channel, seq<Slot>>, events: seq<Event>) {
    forall k :: 0 <= k < |events| ==> !Skips(Before(engine, surfaces, events, k), events[k])
  }

  predicate IsLastReset(events: seq<Event>, k: nat)
    requires k < |events|
  {
    && events[k].Reset? && events[k].accepted
    && forall j :: k < j < |events| ==> !(events[j].Reset? && events[j].accepted)
  }

  /** The last reset the gateway made was answered, or the adapter had read nothing before it. */
  ghost predicate LastResetSeen(engine: Engine, surfaces: map<Channel, seq<Slot>>, events: seq<Event>) {
    forall k :: 0 <= k < |events| && IsLastReset(events, k) ==>
      events[k].arrives || Before(engine, surfaces, events, k).cursors.trace == 0
  }

  lemma SkipStep(engine: Engine, t: Target, e: Event)
    requires TargetInv(engine, t)
    ensures Next(engine, t, e).skipped <==> t.skipped || Skips(t, e)
  {
    NewerIsSuffix(t.episode.delivery.records, t.cursors.intervention);
    NewerIsSuffix(t.inference, t.cursors.inference);
  }

  lemma BeforeShort(engine: Engine, surfaces: map<Channel, seq<Slot>>, events: seq<Event>, n: nat, k: nat)
    requires k <= n <= |events|
    ensures Before(engine, surfaces, events[..n], k) == Before(engine, surfaces, events, k)
  {
    assert events[..n][..k] == events[..k];
  }

  lemma {:induction false} SkippedIff(engine: Engine, surfaces: map<Channel, seq<Slot>>, events: seq<Event>)
    requires SurfacesValid(surfaces)
    ensures !Run(engine, Begin(engine, surfaces), events).skipped <==> NeverSkips(engine, surfaces, events)
    decreases |events|
  {
    if events != [] {
      var n := |events| - 1;
      BeginInv(engine, surfaces);
      TargetRun(engine, Begin(engine, surfaces), events[..n]);
      RunLast(engine, Begin(engine, surfaces), events);
      SkipStep(engine, Before(engine, surfaces, events, n), events[n]);
      SkippedIff(engine, surfaces, events[..n]);
      forall k | 0 <= k < n
        ensures Before(engine, surfaces, events[..n], k) == Before(engine, surfaces, events, k)
      {
        BeforeShort(engine, surfaces, events, n, k);
      }
    }
  }

  lemma BaseStep(engine: Engine, t: Target, e: Event)
    ensures Next(engine, t, e).base
            == if e.Reset? && e.accepted then (if e.arrives then 0 else t.cursors.trace) else t.base
  {
  }

  lemma SeenAtReset(engine: Engine, surfaces: map<Channel, seq<Slot>>, events: seq<Event>)
    requires events != [] && events[|events| - 1].Reset? && events[|events| - 1].accepted
    ensures
      var n := |events| - 1;
      LastResetSeen(engine, surfaces, events)
      <==> events[n].arrives || Before(engine, surfaces, events, n).cursors.trace == 0
  {
    var n := |events| - 1;
    assert IsLastReset(events, n);
    assert forall k :: 0 <= k < n ==> !IsLastReset(events, k);
  }

  lemma SeenAfter(engine: Engine, surfaces: map<Channel, seq<Slot>>, events: seq<Event>)
    requires events != [] && !(events[|events| - 1].Reset? && events[|events| - 1].accepted)
    ensures LastResetSeen(engine, surfaces, events) <==> LastResetSeen(engine, surfaces, events[..|events| - 1])
  {
    var n := |events| - 1;
    forall k | 0 <= k < n
      ensures IsLastReset(events, k) <==> IsLastReset(events[..n], k)
      ensures Before(engine, surfaces, events[..n], k) == Before(engine, surfaces, events, k)
    {
      BeforeShort(engine, surfaces, events, n, k);
    }
  }

  lemma {:induction false} BaseIff(engine: Engine, surfaces: map<Channel, seq<Slot>>, events: seq<Event>)
    ensures Run(engine, Begin(engine, surfaces), events).base == 0 <==> LastResetSeen(engine, surfaces, events)
    decreases |events|
  {
    if events != [] {
      var n := |events| - 1;
      RunLast(engine, Begin(engine, surfaces), events);
      BaseStep(engine, Before(engine, surfaces, events, n), events[n]);
      if events[n].Reset? && events[n].accepted {
        SeenAtReset(engine, surfaces, events);
      } else {
        BaseIff(engine, surfaces, events[..n]);
        SeenAfter(engine, surfaces, events);
      }
    }
  }

  /**
   * After any run followed by a drain that arrives: the drains have handed on every inference record once and in order;
   * every receipt, exactly when the recorder never failed while both an inference record and a receipt were unread;
   * and the whole audit log since the last reset, exactly when that reset was answered, or the adapter had read
   * nothing before it, or there is nothing to read.
   */
  lemma DrainsAreTheLogsIff(engine: Engine, surfaces: map<Channel, seq<Slot>>, events: seq<Event>)
    requires SurfacesValid(surfaces)
    ensures var t := TraceNext(Run(engine, Begin(engine, surfaces), events), Arrives);
            && TargetInv(engine, t)
            && t.seen.inference == t.inference
            && (t.seen.interventions == t.episode.delivery.records <==> NeverSkips(engine, surfaces, events))
            && (t.seen.events == t.episode.audit
                <==> LastResetSeen(engine, surfaces, events) || t.episode.audit == [])
  {
    BeginInv(engine, surfaces);
    TargetRun(engine, Begin(engine, surfaces), events);
    var before := Run(engine, Begin(engine, surfaces), events);
    ArrivingDrain(engine, before);
    SkippedIff(engine, surfaces, events);
    BaseIff(engine, surfaces, events);
    DrainKeepsHistory(before);
  }

  lemma DrainKeepsHistory(t: Target)
    ensures TraceNext(t, Arrives).skipped == t.skipped && TraceNext(t, Arrives).base == t.base
  {
  }

  lemma ReceiptsDrained(before: Target)
    requires IsNumbered(before.episode.delivery.records) && InterventionInv(before)
    ensures var t := TraceNext(before, Arrives);
            t.seen.interventions == before.episode.delivery.records <==> !t.skipped
  {
    var records, cursor := before.episode.delivery.records, before.cursors.intervention;
    NewerIsSuffix(records, cursor);
    if before.skipped {
      assert |before.seen.interventions + Newer(records, cursor)| < |records|;
    } else {
      ReadIsAllIff(records, 0, cursor, before.seen.interventions);
    }
  }

  lemma ArrivingDrain(engine: Engine, before: Target)
    requires TargetInv(engine, before)
    ensures var t := TraceNext(before, Arrives);
            && TargetInv(engine, t)
            && t.cursors.trace == (if before.cursors.trace < |before.episode.audit| then |before.episode.audit|
                                   else before.cursors.trace)
            && t.seen.inference == t.inference
            && (t.seen.interventions == t.episode.delivery.records <==> !t.skipped)
            && (t.seen.events == t.episode.audit <==> t.base == 0 || t.episode.audit == [])
  {
    TraceKeeps(engine, before, Arrives);
    AdvanceToEnd(before.episode.audit, before.cursors.trace);
    ReadIsAllIff(before.episode.audit, before.base, before.cursors.trace, before.seen.events);
    ReadIsAllIff(before.inference, 0, before.cursors.inference, before.seen.inference);
    ReceiptsDrained(before);
  }

  /** A reset that the target refuses leaves an episode that executes nothing, and the cursors as they were. */
  lemma RefusedResetDrains(engine: Engine, t: Target, arrives: bool, effect: Effect, deliveryId: Option<nat>)
    ensures var r := Next(engine, t, Reset(false, arrives));
            && ProcessTx(engine, r.episode, effect, deliveryId) == (r.episode, Draining)
            && r.episode.audit == t.episode.audit && r.cursors == t.cursors && r.seen == t.seen
  {
  }

  /** Every reset that is answered to the adapter puts the trace back at its start. */
  lemma {:induction false} AnsweredResetsKeepTheTrace(engine: Engine, t: Target, events: seq<Event>)
    requires t.base == 0
    requires forall i :: 0 <= i < |events| && events[i].Reset? && events[i].accepted ==> events[i].arrives
    ensures Run(engine, t, events).base == 0
    decreases |events|
  {
    if events != [] {
      AnsweredResetsKeepTheTrace(engine, Next(engine, t, events[0]), events[1..]);
    }
  }

  /** While the recorder does not fail no receipt is skipped. */
  lemma {:induction false} WorkingRecorderSkipsNothing(engine: Engine, t: Target, events: seq<Event>)
    requires !t.skipped
    requires forall i :: 0 <= i < |events| ==> events[i] != Trace(RecorderFails)
    ensures !Run(engine, t, events).skipped
    decreases |events|
  {
    if events != [] {
      WorkingRecorderSkipsNothing(engine, Next(engine, t, events[0]), events[1..]);
    }
  }

  /** One effect, a drain, a reset whose response is lost, and one effect more: the next drain shows nothing of it. */
  lemma LostResetHidesAnEffect(engine: Engine, effect: Effect)
    ensures var call := Gate(Process(effect, None, true));
            var drained := Run(engine, Begin(engine, map[]), [call, Trace(Arrives)]);
            var t := TraceNext(Run(engine, drained, [Reset(true, false), call]), Arrives);
            |t.episode.audit| == 1 && t.seen.events == []
  {
    var events := [Gate(Process(effect, None, true)), Trace(Arrives)];
    BeginInv(engine, map[]);
    TargetRun(engine, Begin(engine, map[]), events);
    FirstEffectDrained(engine, effect);
    LostReset(engine, Run(engine, Begin(engine, map[]), events), effect);
  }

  lemma LostReset(engine: Engine, drained: Target, effect: Effect)
    requires TargetInv(engine, drained) && drained.cursors.trace == 1
    ensures var t := TraceNext(Run(engine, drained, [Reset(true, false), Gate(Process(effect, None, true))]), Arrives);
            |t.episode.audit| == 1 && t.seen.events == []
  {
    RunTwo(engine, drained, Reset(true, false), Gate(Process(effect, None, true)));
    StaleCursorHides(engine, drained, effect);
  }

  lemma FirstEffectDrained(engine: Engine, effect: Effect)
    ensures Run(engine, Begin(engine, map[]), [Gate(Process(effect, None, true)), Trace(Arrives)]).cursors.trace == 1
  {
    var begun, call := Begin(engine, map[]), Gate(Process(effect, None, true));
    RunTwo(engine, begun, call, Trace(Arrives));
    var audit := Next(engine, begun, call).episode.audit;
    assert |audit| == 1 && audit[0].sequence == 1;
    AdvanceToEnd(audit, 0);
  }

  lemma StaleCursorHides(engine: Engine, drained: Target, effect: Effect)
    requires TargetInv(engine, drained) && drained.cursors.trace == 1
    ensures var reset := Next(engine, drained, Reset(true, false));
            var t := TraceNext(Next(engine, reset, Gate(Process(effect, None, true))), Arrives);
            |t.episode.audit| == 1 && t.seen.events == []
  {
    var reset := Next(engine, drained, Reset(true, false));
    ResetNextKeeps(engine, drained, true, false);
    ResetKeeps(engine, drained.episode);
    GateKeeps(engine, reset, Process(effect, None, true));
    var after := Next(engine, reset, Gate(Process(effect, None, true)));
    NewerIsSuffix(after.episode.audit, 1);
  }

  /** One receipt, one inference record, a drain whose recorder fails: the next drain hands on the record and no receipt. */
  lemma FailingRecorderHidesAReceipt(engine: Engine, record: InferenceContracts.Audit)
    ensures var begun := Run(engine, Begin(engine, map[]), [Gate(BeginDelivery(Malformed)), Settle(record)]);
            var t := TraceNext(Next(engine, begun, Trace(RecorderFails)), Arrives);
            && |t.episode.delivery.records| == 1 && t.seen.interventions == []
            && t.seen.inference == t.inference == [Numbered(1, record)]
  {
    UnreadRun(engine, record);
    FailedDrain(engine, Run(engine, Begin(engine, map[]), [Gate(BeginDelivery(Malformed)), Settle(record)]), record);
  }

  /** One receipt, and nothing handed on. */
  ghost predicate OneUnread(engine: Engine, t: Target, inference: seq<Numbered<InferenceContracts.Audit>>) {
    && TargetInv(engine, t) && |t.episode.delivery.records| == 1 && t.inference == inference
    && t.cursors == Cursors(0, 0, 0) && t.seen.interventions == []
  }

  lemma FirstReceipt(engine: Engine)
    ensures OneUnread(engine, Next(engine, Begin(engine, map[]), Gate(BeginDelivery(Malformed))), [])
  {
    BeginInv(engine, map[]);
    GateKeeps(engine, Begin(engine, map[]), BeginDelivery(Malformed));
  }

  lemma UnreadAfter(engine: Engine, t: Target, record: InferenceContracts.Audit)
    requires OneUnread(engine, t, [])
    ensures OneUnread(engine, Next(engine, t, Settle(record)), [Numbered(1, record)])
  {
    SettleKeeps(engine, t, record);
  }

  lemma UnreadRun(engine: Engine, record: InferenceContracts.Audit)
    ensures OneUnread(engine, Run(engine, Begin(engine, map[]), [Gate(BeginDelivery(Malformed)), Settle(record)]),
                      [Numbered(1, record)])
  {
    RunTwo(engine, Begin(engine, map[]), Gate(BeginDelivery(Malformed)), Settle(record));
    FirstReceipt(engine);
    UnreadAfter(engine, Next(engine, Begin(engine, map[]), Gate(BeginDelivery(Malformed))), record);
  }

  lemma FailedDrain(engine: Engine, begun: Target, record: InferenceContracts.Audit)
    requires OneUnread(engine, begun, [Numbered(1, record)])
    ensures var t := TraceNext(Next(engine, begun, Trace(RecorderFails)), Arrives);
            && |t.episode.delivery.records| == 1 && t.seen.interventions == []
            && t.seen.inference == t.inference == [Numbered(1, record)]
  {
    FailedRecorderSkips(engine, begun);
  }

  /** Whatever was unread when the recorder failed is never handed on. */
  lemma FailedRecorderSkips(engine: Engine, t: Target)
    requires TargetInv(engine, t) && Skips(t, Trace(RecorderFails))
    ensures var after := TraceNext(TraceNext(t, RecorderFails), Arrives);
            && after.seen.interventions == t.seen.interventions
            && after.seen.inference == after.inference == t.inference
            && after.episode == t.episode
  {
    var failed := TraceNext(t, RecorderFails);
    NewerIsSuffix(t.inference, t.cursors.inference);
    TraceKeeps(engine, t, RecorderFails);
    AdvanceToEnd(t.episode.delivery.records, t.cursors.intervention);
    NewerIsSuffix(t.episode.delivery.records, failed.cursors.intervention);
    ArrivingDrain(engine, failed);
  }

  lemma RunTwo(engine: Engine, t: Target, a: Event, b: Event)
    ensures Run(engine, t, [a, b]) == Next(engine, Next(engine, t, a), b)
  {
    assert [a, b][1..] == [b] && [b][1..] == [];
    assert Run(engine, Next(engine, t, a), [b]) == Next(engine, Next(engine, t, a), b);
  }
}
