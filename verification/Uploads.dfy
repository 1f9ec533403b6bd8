/** Artifact uploads against an owner's storage quota, with transfers and finalizations in flight. */
module Uploads {
  import opened Prelude

  /** Contents stand for their digests. `size` and `digest` are declared by the client and need not agree. */
  datatype Declared = Declared(size: nat, digest: seq<nat>)

  datatype Status = Pending | Uploading | Uploaded | Finalizing | Completed | Failed | Cancelled | Expired

  /** `file` is the partial file; `refunds` counts how often the size went back to the owner. */
  datatype Upload = Upload(key: nat, declared: Declared, status: Status, file: Option<seq<nat>>,
                           artifact: Option<seq<nat>>, refunds: nat)

  /** A request being served for one upload. A transfer has received `got`; a finalizer may have stored it. */
  datatype Actor =
    | Transfer(upload: nat, got: seq<nat>)
    | Finalizer(upload: nat, stored: Option<seq<nat>>)
    | Gone

  /** A stored dataset or report, and the record it belongs to. */
  datatype StoredResult = StoredResult(record: nat, size: nat)

  datatype Owner = Owner(quota: int, reserved: int, uploads: seq<Upload>, results: seq<StoredResult>,
                         actors: seq<Actor>)

  /** The last transaction of a request may take effect and still raise: then it is not acknowledged. */
  datatype Event =
    | Initiate(key: nat, declared: Declared, runFound: bool)
    | BeginTransfer(upload: nat)
    | Chunk(actor: nat, bytes: seq<nat>)
    | EndTransfer(actor: nat, acknowledged: bool)
    | BeginFinalize(upload: nat)
    | PutFile(actor: nat)
    | EndFinalize(actor: nat, acknowledged: bool)
    | Abort(actor: nat)
    | Crash(actor: nat)
    | Cancel(upload: nat)
    | Expire(upload: nat)
    | StoreResult(record: nat, size: nat)

  // ----- requests -----

  datatype Initiated = Known(upload: nat) | KeyConflict | QuotaExhausted | RunMissing | Created(upload: nat)

  function FindKey(uploads: seq<Upload>, key: nat): (r: Option<nat>)
    ensures r.Some? ==> r.value < |uploads| && uploads[r.value].key == key
    ensures r.None? ==> forall i :: 0 <= i < |uploads| ==> uploads[i].key != key
  {
    if uploads == [] then
      None
    else if uploads[|uploads| - 1].key == key then
      Some(|uploads| - 1)
    else
      FindKey(uploads[..|uploads| - 1], key)
  }

  function InitiateTx(o: Owner, key: nat, declared: Declared, runFound: bool): (Owner, Initiated) {
    var prior := FindKey(o.uploads, key);
    if prior.Some? then
      (o, if o.uploads[prior.value].declared == declared then Known(prior.value) else KeyConflict)
    else if o.reserved + declared.size > o.quota then
      (o, QuotaExhausted)
    else if !runFound then
      (o, RunMissing)
    else
      (o.(reserved := o.reserved + declared.size,
          uploads := o.uploads + [Upload(key, declared, Pending, None, None, 0)]),
       Created(|o.uploads|))
  }

  function Put(o: Owner, u: nat, up: Upload): Owner
    requires u < |o.uploads|
  {
    o.(uploads := o.uploads[u := up])
  }

  function Serve(o: Owner, a: Actor): Owner {
    o.(actors := o.actors + [a])
  }

  function Leave(o: Owner, a: nat): Owner
    requires a < |o.actors|
  {
    o.(actors := o.actors[a := Gone])
  }

  /** Opening the partial file empties it. */
  function BeginTransferTx(o: Owner, u: nat): Owner {
    if u < |o.uploads| && (o.uploads[u].status.Pending? || o.uploads[u].status.Failed?) then
      Serve(Put(o, u, o.uploads[u].(status := Uploading, file := Some([]))), Transfer(u, []))
    else
      o
  }

  /** An unlinked file takes no more writes that anyone can see. */
  function Written(file: Option<seq<nat>>, got: seq<nat>): Option<seq<nat>> {
    if file.Some? then Some(got) else None
  }

  predicate Transferring(o: Owner, a: nat) {
    a < |o.actors| && o.actors[a].Transfer? && o.actors[a].upload < |o.uploads|
  }

  predicate Finalizes(o: Owner, a: nat) {
    a < |o.actors| && o.actors[a].Finalizer? && o.actors[a].upload < |o.uploads|
  }

  /** A chunk that passes the declared size ends the transfer before it is written. */
  function ChunkTx(o: Owner, a: nat, bytes: seq<nat>): Owner {
    if !Transferring(o, a) then
      o
    else
      var Transfer(u, got) := o.actors[a];
      if |got| + |bytes| > o.uploads[u].declared.size then
        AbortTransfer(o, a)
      else
        Put(o, u, o.uploads[u].(file := Written(o.uploads[u].file, got + bytes)))
        .(actors := o.actors[a := Transfer(u, got + bytes)])
  }

  function AbortTransfer(o: Owner, a: nat): Owner
    requires Transferring(o, a)
  {
    var u := o.actors[a].upload;
    var up := o.uploads[u];
    Leave(Put(o, u, up.(file := None, status := if up.status.Uploading? then Failed else up.status)), a)
  }

  /** A transfer whose last transaction took effect and raised removes its file behind the row's back. */
  function EndTransferTx(o: Owner, a: nat, acknowledged: bool): Owner {
    if !Transferring(o, a) then
      o
    else
      var Transfer(u, got) := o.actors[a];
      var up := o.uploads[u];
      if |got| == up.declared.size && got == up.declared.digest && up.status.Uploading? then
        Leave(Put(o, u, up.(status := Uploaded, file := if acknowledged then up.file else None)), a)
      else
        AbortTransfer(o, a)
  }

  function BeginFinalizeTx(o: Owner, u: nat): Owner {
    if u < |o.uploads| && o.uploads[u].status.Uploaded? then
      Serve(Put(o, u, o.uploads[u].(status := Finalizing)), Finalizer(u, None))
    else
      o
  }

  /** Storing reads the file as it is; without one it fails. */
  function PutFileTx(o: Owner, a: nat): Owner {
    if !Finalizes(o, a) then
      o
    else
      var u := o.actors[a].upload;
      if o.uploads[u].file.None? then AbortFinalize(o, a)
      else o.(actors := o.actors[a := Finalizer(u, o.uploads[u].file)])
  }

  function AbortFinalize(o: Owner, a: nat): Owner
    requires Finalizes(o, a)
  {
    var u := o.actors[a].upload;
    var up := o.uploads[u];
    var status := if !up.status.Finalizing? then up.status else if up.file.Some? then Uploaded else Failed;
    Leave(Put(o, u, up.(status := status)), a)
  }

  /** A finalization whose last transaction took effect and raised leaves its file behind. */
  function EndFinalizeTx(o: Owner, a: nat, acknowledged: bool): Owner {
    if !Finalizes(o, a) || o.actors[a].stored.None? then
      o
    else
      var Finalizer(u, Some(stored)) := o.actors[a];
      var up := o.uploads[u];
      if stored != up.declared.digest || |stored| != up.declared.size || !up.status.Finalizing? then
        AbortFinalize(o, a)
      else
        Leave(Put(o, u, up.(status := Completed, artifact := Some(stored),
                            file := if acknowledged then None else up.file)), a)
  }

  function AbortTx(o: Owner, a: nat): Owner {
    if Transferring(o, a) then AbortTransfer(o, a) else if Finalizes(o, a) then AbortFinalize(o, a) else o
  }

  predicate Refunded(s: Status) {
    s.Cancelled? || s.Expired?
  }

  /** The one place a size goes back: neither completed uploads nor those already given back. */
  function Refund(o: Owner, u: nat, status: Status): Owner
    requires u < |o.uploads|
  {
    var up := o.uploads[u];
    if up.status.Completed? || Refunded(up.status) then
      o
    else
      Put(o, u, up.(status := status, file := None, refunds := up.refunds + 1))
      .(reserved := o.reserved - up.declared.size)
  }

  predicate HasResult(results: seq<StoredResult>, record: nat) {
    exists i :: 0 <= i < |results| && results[i].record == record
  }

  function StoreResultTx(o: Owner, record: nat, size: nat): Owner {
    if HasResult(o.results, record) || o.reserved + size > o.quota then
      o
    else
      o.(reserved := o.reserved + size, results := o.results + [StoredResult(record, size)])
  }

  function Next(o: Owner, e: Event): Owner {
    match e
    case Initiate(key, declared, found) => InitiateTx(o, key, declared, found).0
    case BeginTransfer(u) => BeginTransferTx(o, u)
    case Chunk(a, bytes) => ChunkTx(o, a, bytes)
    case EndTransfer(a, acknowledged) => EndTransferTx(o, a, acknowledged)
    case BeginFinalize(u) => BeginFinalizeTx(o, u)
    case PutFile(a) => PutFileTx(o, a)
    case EndFinalize(a, acknowledged) => EndFinalizeTx(o, a, acknowledged)
    case Abort(a) => AbortTx(o, a)
    case Crash(a) => if a < |o.actors| then Leave(o, a) else o
    case Cancel(u) => if u < |o.uploads| then Refund(o, u, Cancelled) else o
    case Expire(u) => if u < |o.uploads| then Refund(o, u, Expired) else o
    case StoreResult(record, size) => StoreResultTx(o, record, size)
  }

  function Run(o: Owner, events: seq<Event>): Owner
    decreases |events|
  {
    if events == [] then o else Run(Next(o, events[0]), events[1..])
  }

  // ----- the invariant -----

  /** What an upload holds of the quota. */
  function Charge(up: Upload): int {
    if Refunded(up.status) then 0 else up.declared.size
  }

  function Charges(uploads: seq<Upload>): seq<int> {
    seq(|uploads|, i requires 0 <= i < |uploads| => Charge(uploads[i]))
  }

  function Sizes(results: seq<StoredResult>): seq<int> {
    seq(|results|, i requires 0 <= i < |results| => results[i].size)
  }

  /**
   * Reserved bytes are the sizes of uploads not given back, with the stored results, one a record;
   * within the quota.
   */
  ghost predicate QuotaInv(o: Owner) {
    && o.reserved == Total(Charges(o.uploads)) + Total(Sizes(o.results))
    && o.reserved <= o.quota
    && forall i, j :: 0 <= i < j < |o.results| ==> o.results[i].record != o.results[j].record
  }

  ghost predicate UploadOk(up: Upload) {
    && up.refunds == (if Refunded(up.status) then 1 else 0)
    && (Refunded(up.status) ==> up.file.None?)
    && (up.artifact.Some? <==> up.status.Completed?)
    && (up.artifact.Some? ==> up.artifact.value == up.declared.digest && |up.artifact.value| == up.declared.size)
    && (up.status.Uploaded? || up.status.Finalizing? ==>
          && |up.declared.digest| == up.declared.size
          && (up.file.Some? ==> up.file.value == up.declared.digest))
  }

  /** Someone is serving this upload in the state its status names, and it is the only one. */
  ghost predicate ActorsOk(o: Owner) {
    && (forall a :: 0 <= a < |o.actors| && !o.actors[a].Gone? ==> o.actors[a].upload < |o.uploads|)
    && (forall a :: 0 <= a < |o.actors| ==> ActorOk(o, o.actors[a]))
    && (forall a, b :: 0 <= a < |o.actors| && 0 <= b < |o.actors| && a != b
                       && !o.actors[a].Gone? && !o.actors[b].Gone? && o.actors[a].upload == o.actors[b].upload ==>
          Refunded(o.uploads[o.actors[a].upload].status))
  }

  ghost predicate ActorOk(o: Owner, a: Actor) {
    match a
    case Gone => true
    case Transfer(u, got) =>
      u < |o.uploads| ==>
        var up := o.uploads[u];
        && (up.status.Uploading? || Refunded(up.status))
        && (up.status.Uploading? ==> up.file == Some(got))
    case Finalizer(u, stored) =>
      u < |o.uploads| ==>
        var up := o.uploads[u];
        && (up.status.Finalizing? || Refunded(up.status))
        && (stored.Some? ==> stored.value == up.declared.digest && |stored.value| == up.declared.size)
  }

  ghost predicate Inv(o: Owner) {
    && QuotaInv(o)
    && (forall u :: 0 <= u < |o.uploads| ==> UploadOk(o.uploads[u]))
    && ActorsOk(o)
  }

  lemma PutCharges(o: Owner, u: nat, up: Upload)
    requires u < |o.uploads|
    ensures Total(Charges(Put(o, u, up).uploads)) == Total(Charges(o.uploads)) - Charge(o.uploads[u]) + Charge(up)
  {
    assert Charges(o.uploads[u := up]) == Charges(o.uploads)[u := Charge(up)];
    TotalUpdate(Charges(o.uploads), u, Charge(up));
  }

  lemma InitiateKeeps(o: Owner, key: nat, declared: Declared, runFound: bool)
    requires Inv(o)
    ensures Inv(InitiateTx(o, key, declared, runFound).0)
  {
    var r := InitiateTx(o, key, declared, runFound).0;
    if r != o {
      assert Charges(r.uploads) == Charges(o.uploads) + [declared.size];
      TotalAppend(Charges(o.uploads), declared.size);
      forall a | 0 <= a < |r.actors|
        ensures ActorOk(r, r.actors[a])
      {
        assert ActorOk(o, o.actors[a]);
      }
    }
  }

  /** A change that keeps the charge and hands the upload to a new actor, when nobody is serving it. */
  lemma ServeKeeps(o: Owner, u: nat, up: Upload, actor: Actor)
    requires Inv(o) && u < |o.uploads| && UploadOk(up) && Charge(up) == Charge(o.uploads[u])
    requires !o.uploads[u].status.Uploading? && !o.uploads[u].status.Finalizing? && !Refunded(o.uploads[u].status)
    requires !actor.Gone? && actor.upload == u && ActorOk(Put(o, u, up), actor)
    ensures Inv(Serve(Put(o, u, up), actor))
  {
    var r := Serve(Put(o, u, up), actor);
    PutCharges(o, u, up);
    forall a | 0 <= a < |o.actors|
      ensures ActorOk(r, o.actors[a]) && (!o.actors[a].Gone? ==> o.actors[a].upload != u)
    {
      assert ActorOk(o, o.actors[a]);
    }
  }

  /** A change by the actor that serves the upload, which then stays or leaves. */
  lemma ActKeeps(o: Owner, a: nat, up: Upload, actor: Actor)
    requires Inv(o) && a < |o.actors| && !o.actors[a].Gone?
    requires var u := o.actors[a].upload;
             && UploadOk(up) && Charge(up) == Charge(o.uploads[u])
             && up.declared == o.uploads[u].declared
             && (actor.Gone? || actor.upload == u)
             && ActorOk(Put(o, u, up), actor)
             && (Refunded(o.uploads[u].status) ==> Refunded(up.status))
    ensures Inv(Put(o, o.actors[a].upload, up).(actors := o.actors[a := actor]))
  {
    var u := o.actors[a].upload;
    var r := Put(o, u, up).(actors := o.actors[a := actor]);
    PutCharges(o, u, up);
    forall b | 0 <= b < |r.actors|
      ensures ActorOk(r, r.actors[b])
    {
      assert ActorOk(o, o.actors[b]);
    }
  }

  lemma TransferKeeps(o: Owner, a: nat, bytes: seq<nat>, acknowledged: bool)
    requires Inv(o)
    ensures Inv(ChunkTx(o, a, bytes)) && Inv(EndTransferTx(o, a, acknowledged))
    ensures Transferring(o, a) ==> Inv(AbortTransfer(o, a))
  {
    if Transferring(o, a) {
      var Transfer(u, got) := o.actors[a];
      var up := o.uploads[u];
      assert ActorOk(o, o.actors[a]);
      ActKeeps(o, a, up.(file := None, status := if up.status.Uploading? then Failed else up.status), Gone);
      ActKeeps(o, a, up.(file := Written(up.file, got + bytes)), Transfer(u, got + bytes));
      if |got| == up.declared.size && got == up.declared.digest && up.status.Uploading? {
        ActKeeps(o, a, up.(status := Uploaded, file := if acknowledged then up.file else None), Gone);
      }
    }
  }

  lemma FinalizerKeeps(o: Owner, a: nat, acknowledged: bool)
    requires Inv(o)
    ensures Inv(PutFileTx(o, a)) && Inv(EndFinalizeTx(o, a, acknowledged))
    ensures Finalizes(o, a) ==> Inv(AbortFinalize(o, a))
  {
    if Finalizes(o, a) {
      var Finalizer(u, stored) := o.actors[a];
      var up := o.uploads[u];
      assert ActorOk(o, o.actors[a]);
      var status := if !up.status.Finalizing? then up.status else if up.file.Some? then Uploaded else Failed;
      ActKeeps(o, a, up.(status := status), Gone);
      if up.file.Some? && up.status.Finalizing? {
        ActKeeps(o, a, up, Finalizer(u, up.file));
        assert Put(o, u, up) == o;
      }
      if stored.Some? && up.status.Finalizing? {
        ActKeeps(o, a, up.(status := Completed, artifact := stored, file := if acknowledged then None else up.file), Gone);
      }
    }
  }

  lemma RefundKeeps(o: Owner, u: nat, status: Status)
    requires Inv(o) && u < |o.uploads| && Refunded(status)
    ensures Inv(Refund(o, u, status))
  {
    var r := Refund(o, u, status);
    if r != o {
      PutCharges(o, u, r.uploads[u]);
      forall a | 0 <= a < |r.actors|
        ensures ActorOk(r, r.actors[a])
      {
        assert ActorOk(o, o.actors[a]);
      }
    }
  }

  lemma StoreResultKeeps(o: Owner, record: nat, size: nat)
    requires Inv(o)
    ensures Inv(StoreResultTx(o, record, size))
  {
    var r := StoreResultTx(o, record, size);
    if r != o {
      assert Sizes(r.results) == Sizes(o.results) + [size];
      TotalAppend(Sizes(o.results), size);
      forall a | 0 <= a < |r.actors|
        ensures ActorOk(r, r.actors[a])
      {
        assert ActorOk(o, o.actors[a]);
      }
    }
  }

  lemma CrashKeeps(o: Owner, a: nat)
    requires Inv(o) && a < |o.actors|
    ensures Inv(Leave(o, a))
  {
    var r := Leave(o, a);
    forall b | 0 <= b < |r.actors|
      ensures ActorOk(r, r.actors[b])
    {
      assert ActorOk(o, o.actors[b]);
    }
  }

  lemma BeginKeeps(o: Owner, u: nat)
    requires Inv(o)
    ensures Inv(BeginTransferTx(o, u)) && Inv(BeginFinalizeTx(o, u))
  {
    if u < |o.uploads| {
      var up := o.uploads[u];
      if up.status.Pending? || up.status.Failed? {
        ServeKeeps(o, u, up.(status := Uploading, file := Some([])), Transfer(u, []));
      }
      if up.status.Uploaded? {
        ServeKeeps(o, u, up.(status := Finalizing), Finalizer(u, None));
      }
    }
  }

  /** The events of a request in flight. */
  predicate OfActor(e: Event) {
    e.Chunk? || e.EndTransfer? || e.PutFile? || e.EndFinalize? || e.Abort? || e.Crash?
  }

  lemma ActorKeeps(o: Owner, e: Event)
    requires Inv(o) && OfActor(e)
    ensures Inv(Next(o, e))
  {
    match e
    case Chunk(a, bytes) => TransferKeeps(o, a, bytes, true);
    case EndTransfer(a, acknowledged) => TransferKeeps(o, a, [], acknowledged);
    case PutFile(a) => FinalizerKeeps(o, a, true);
    case EndFinalize(a, acknowledged) => FinalizerKeeps(o, a, acknowledged);
    case Abort(a) => AbortKeeps(o, a);
    case Crash(a) =>
      if a < |o.actors| {
        CrashKeeps(o, a);
      }
  }

  lemma AbortKeeps(o: Owner, a: nat)
    requires Inv(o)
    ensures Inv(AbortTx(o, a))
  {
    TransferKeeps(o, a, [], true);
    FinalizerKeeps(o, a, true);
  }

  lemma RequestKeeps(o: Owner, e: Event)
    requires Inv(o) && !OfActor(e)
    ensures Inv(Next(o, e))
  {
    match e
    case Initiate(key, declared, found) => InitiateKeeps(o, key, declared, found);
    case BeginTransfer(u) => BeginKeeps(o, u);
    case BeginFinalize(u) => BeginKeeps(o, u);
    case Cancel(u) =>
      if u < |o.uploads| {
        RefundKeeps(o, u, Cancelled);
      }
    case Expire(u) =>
      if u < |o.uploads| {
        RefundKeeps(o, u, Expired);
      }
    case StoreResult(record, size) => StoreResultKeeps(o, record, size);
  }

  lemma NextKeeps(o: Owner, e: Event)
    requires Inv(o)
    ensures Inv(Next(o, e))
  {
    if OfActor(e) {
      ActorKeeps(o, e);
    } else {
      RequestKeeps(o, e);
    }
  }

  // ----- main results -----

  lemma {:induction false} InvRun(o: Owner, events: seq<Event>)
    requires Inv(o)
    ensures Inv(Run(o, events)) && Run(o, events).quota == o.quota
    decreases |events|
  {
    if events != [] {
      NextKeeps(o, events[0]);
      InvRun(Next(o, events[0]), events[1..]);
    }
  }

  /**
   * Through every interleaving of requests, crashes, expiries and transactions that raise after they took effect:
   * the reserved bytes are exactly what the uploads not given back and the stored results take, within the quota;
   * each size goes back at most once, each record has at most one result,
   * and a completed upload's artifact is the declared content.
   */
  lemma StorageRun(quota: nat, events: seq<Event>)
    ensures var r := Run(Owner(quota, 0, [], [], []), events);
            && Inv(r)
            && r.reserved == Total(Charges(r.uploads)) + Total(Sizes(r.results))
            && 0 <= r.reserved <= quota
            && forall u :: 0 <= u < |r.uploads| ==>
                 && r.uploads[u].refunds <= 1
                 && (r.uploads[u].status.Completed? ==> r.uploads[u].artifact == Some(r.uploads[u].declared.digest))
  {
    InvRun(Owner(quota, 0, [], [], []), events);
    var r := Run(Owner(quota, 0, [], [], []), events);
    TotalNonNegative(Charges(r.uploads));
    TotalNonNegative(Sizes(r.results));
  }

  /** A completed upload is never touched again, and one given back stays given back. */
  lemma {:induction false} SettledForever(o: Owner, events: seq<Event>, u: nat)
    requires Inv(o) && u < |o.uploads| && (o.uploads[u].status.Completed? || Refunded(o.uploads[u].status))
    ensures SameUpload(o, Run(o, events), u)
    decreases |events|
  {
    if events != [] {
      SettledStep(o, events[0], u);
      NextKeeps(o, events[0]);
      SettledForever(Next(o, events[0]), events[1..], u);
    }
  }

  /** What no later event may change of a completed upload, or of one that was given back. */
  predicate SameUpload(o: Owner, r: Owner, u: nat)
    requires u < |o.uploads|
  {
    && u < |r.uploads|
    && r.uploads[u].declared == o.uploads[u].declared
    && r.uploads[u].status == o.uploads[u].status
    && r.uploads[u].artifact == o.uploads[u].artifact
    && r.uploads[u].refunds == o.uploads[u].refunds
  }

  lemma SettledStep(o: Owner, e: Event, u: nat)
    requires Inv(o) && u < |o.uploads| && (o.uploads[u].status.Completed? || Refunded(o.uploads[u].status))
    ensures SameUpload(o, Next(o, e), u)
  {
    if OfActor(e) {
      SettledActor(o, e, u);
    }
  }

  lemma SettledActor(o: Owner, e: Event, u: nat)
    requires Inv(o) && u < |o.uploads| && (o.uploads[u].status.Completed? || Refunded(o.uploads[u].status))
    requires OfActor(e)
    ensures SameUpload(o, Next(o, e), u)
  {
    forall a | 0 <= a < |o.actors|
      ensures ActorOk(o, o.actors[a])
    {
    }
  }

  /**
   * What a finalization reads back is the declared content; it can read when the file is there,
   * and then completes exactly when the upload was not given back meanwhile.
   */
  lemma FinalizationSucceedsIff(o: Owner, a: nat, acknowledged: bool)
    requires Inv(o) && Finalizes(o, a)
    ensures var up := o.uploads[o.actors[a].upload];
            var after := EndFinalizeTx(o, a, acknowledged).uploads[o.actors[a].upload];
            && (PutFileTx(o, a).actors[a].Finalizer? <==> up.file.Some?)
            && (Refunded(up.status) ==> up.file.None?)
            && (up.file.Some? ==> up.file.value == up.declared.digest)
            && (o.actors[a].stored.Some? ==> (after.status.Completed? <==> !Refunded(up.status)))
  {
    assert ActorOk(o, o.actors[a]);
    assert UploadOk(o.uploads[o.actors[a].upload]);
  }

  /**
   * A transfer ends with the upload ready exactly when it received what was declared and was not given up,
   * and the file is there exactly when that was acknowledged.
   */
  lemma TransferSucceedsIff(o: Owner, a: nat, acknowledged: bool)
    requires Inv(o) && Transferring(o, a)
    ensures var Transfer(u, got) := o.actors[a];
            var up := o.uploads[u];
            var after := EndTransferTx(o, a, acknowledged).uploads[u];
            && (after.status.Uploaded? <==>
                  !Refunded(up.status) && got == up.declared.digest && |got| == up.declared.size)
            && after.file == if after.status.Uploaded? && acknowledged then Some(up.declared.digest) else None
  {
    assert ActorOk(o, o.actors[a]);
  }

  /** An upload whose file was lost that way fails at its next finalization, and can then be transferred again. */
  lemma LostFileIsTransferredAgain(o: Owner, u: nat)
    requires Inv(o) && u < |o.uploads| && o.uploads[u].status.Uploaded? && o.uploads[u].file.None?
    ensures var t := PutFileTx(BeginFinalizeTx(o, u), |o.actors|);
            && t.uploads[u].status.Failed? && t.reserved == o.reserved
            && BeginTransferTx(t, u).uploads[u].status.Uploading?
  {
  }

  /** One transfer of the declared content whose last transaction takes effect and raises: an uploaded row, and no file. */
  lemma UnacknowledgedTransferLosesTheFile(quota: nat, key: nat, bytes: seq<nat>)
    requires |bytes| <= quota
    ensures var started := Run(Owner(quota, 0, [], [], []), [Initiate(key, Declared(|bytes|, bytes), true), BeginTransfer(0)]);
            var o := Run(started, [Chunk(0, bytes), EndTransfer(0, false)]);
            && Inv(o)
            && o.uploads == [Upload(key, Declared(|bytes|, bytes), Uploaded, None, None, 0)]
  {
    var empty, declared := Owner(quota, 0, [], [], []), Declared(|bytes|, bytes);
    RunTwo(empty, Initiate(key, declared, true), BeginTransfer(0));
    InvRun(empty, [Initiate(key, declared, true), BeginTransfer(0)]);
    var started := Next(Next(empty, Initiate(key, declared, true)), BeginTransfer(0));
    var up := Upload(key, declared, Uploading, Some([]), None, 0);
    assert started == Owner(quota, |bytes|, [up], [], [Transfer(0, [])]);
    RunTwo(started, Chunk(0, bytes), EndTransfer(0, false));
    InvRun(started, [Chunk(0, bytes), EndTransfer(0, false)]);
    assert [] + bytes == bytes;
    assert Next(started, Chunk(0, bytes)).actors == [Transfer(0, bytes)];
  }

  lemma RunTwo(o: Owner, a: Event, b: Event)
    ensures Run(o, [a, b]) == Next(Next(o, a), b)
  {
    assert [a, b][1..] == [b] && [b][1..] == [];
    assert Run(Next(o, a), [b]) == Next(Next(o, a), b);
  }

  // ----- what the requests answer -----

  predicate KeysDiffer(uploads: seq<Upload>) {
    forall i, j :: 0 <= i < j < |uploads| ==> uploads[i].key != uploads[j].key
  }

  /** A key that was seen gets its upload back or a conflict; each refusal of a new one by its own condition. */
  predicate InitiateMeans(o: Owner, key: nat, declared: Declared, runFound: bool, r: Owner, reply: Initiated) {
    if exists u :: 0 <= u < |o.uploads| && o.uploads[u].key == key then
      r == o && forall u :: 0 <= u < |o.uploads| && o.uploads[u].key == key ==>
                  reply == if o.uploads[u].declared == declared then Known(u) else KeyConflict
    else
      && (reply == QuotaExhausted <==> o.reserved + declared.size > o.quota)
      && (reply == RunMissing <==> o.reserved + declared.size <= o.quota && !runFound)
      && (reply == Created(|o.uploads|) <==> o.reserved + declared.size <= o.quota && runFound)
      && r == (if reply == Created(|o.uploads|)
               then o.(reserved := o.reserved + declared.size,
                       uploads := o.uploads + [Upload(key, declared, Pending, None, None, 0)])
               else o)
  }

  lemma InitiateAnswers(o: Owner, key: nat, declared: Declared, runFound: bool)
    requires KeysDiffer(o.uploads)
    ensures var (r, reply) := InitiateTx(o, key, declared, runFound);
            InitiateMeans(o, key, declared, runFound, r, reply) && KeysDiffer(r.uploads)
  {
  }

  /** No event loses an upload, or changes its key or what was declared. */
  predicate KeepsUploads(o: Owner, r: Owner) {
    && |o.uploads| <= |r.uploads|
    && forall u :: 0 <= u < |o.uploads| ==> r.uploads[u].key == o.uploads[u].key && r.uploads[u].declared == o.uploads[u].declared
  }

  lemma UploadsStep(o: Owner, e: Event)
    requires KeysDiffer(o.uploads)
    ensures KeepsUploads(o, Next(o, e)) && KeysDiffer(Next(o, e).uploads)
  {
    if e.Initiate? {
      InitiateAnswers(o, e.key, e.declared, e.runFound);
    } else {
      UploadsAct(o, e);
    }
  }

  lemma UploadsAct(o: Owner, e: Event)
    requires !e.Initiate?
    ensures KeepsUploads(o, Next(o, e)) && |Next(o, e).uploads| == |o.uploads|
  {
  }

  lemma {:induction false} UploadsStay(o: Owner, events: seq<Event>)
    requires KeysDiffer(o.uploads)
    ensures KeepsUploads(o, Run(o, events)) && KeysDiffer(Run(o, events).uploads)
    decreases |events|
  {
    if events != [] {
      UploadsStep(o, events[0]);
      UploadsStay(Next(o, events[0]), events[1..]);
    }
  }

  /**
   * A request that created an upload is answered with it ever after, whatever happens in between, and changes nothing;
   * the same key with another declaration is a conflict ever after.
   */
  lemma InitiateIsIdempotent(o: Owner, key: nat, declared: Declared, events: seq<Event>, other: Declared, runFound: bool)
    requires KeysDiffer(o.uploads) && InitiateTx(o, key, declared, true).1.Created? && other != declared
    ensures var r := Run(Next(o, Initiate(key, declared, true)), events);
            && InitiateTx(r, key, declared, runFound) == (r, Known(|o.uploads|))
            && InitiateTx(r, key, other, runFound) == (r, KeyConflict)
  {
    var made := Next(o, Initiate(key, declared, true));
    InitiateAnswers(o, key, declared, true);
    UploadsStay(made, events);
    var r := Run(made, events);
    assert r.uploads[|o.uploads|].key == key && r.uploads[|o.uploads|].declared == declared;
    InitiateAnswers(r, key, declared, runFound);
    InitiateAnswers(r, key, other, runFound);
  }

  /** One upload and one request change, and nothing else does. */
  predicate Changes(o: Owner, r: Owner, a: nat, u: nat) {
    && a < |o.actors| && u < |o.uploads|
    && |r.uploads| == |o.uploads| && |r.actors| == |o.actors|
    && r == o.(uploads := o.uploads[u := r.uploads[u]], actors := o.actors[a := r.actors[a]])
    && r.uploads[u] == o.uploads[u].(status := r.uploads[u].status, file := r.uploads[u].file, artifact := r.uploads[u].artifact)
  }

  /** A transfer takes a chunk exactly when all it has received stays within the declared size; otherwise it fails. */
  lemma ChunkAnswers(o: Owner, a: nat, bytes: seq<nat>)
    requires Inv(o) && Transferring(o, a)
    ensures var Transfer(u, got) := o.actors[a];
            var up, r := o.uploads[u], ChunkTx(o, a, bytes);
            && Changes(o, r, a, u) && r.uploads[u].artifact == up.artifact
            && (if |got| + |bytes| <= up.declared.size then
                  && r.actors[a] == Transfer(u, got + bytes)
                  && r.uploads[u].status == up.status
                  && r.uploads[u].file == (if up.file.Some? then Some(got + bytes) else None)
                else
                  && r.actors[a] == Gone && r.uploads[u].file.None?
                  && r.uploads[u].status == (if up.status == Uploading then Failed else up.status))
  {
  }

  /** A finalization that fails leaves the upload ready exactly when its file is there. */
  lemma AbortedFinalization(o: Owner, a: nat)
    requires Inv(o) && Finalizes(o, a)
    ensures var u := o.actors[a].upload;
            var up, r := o.uploads[u], AbortTx(o, a);
            && Changes(o, r, a, u) && r.actors[a] == Gone
            && r.uploads[u].file == up.file && r.uploads[u].artifact == up.artifact
            && r.uploads[u].status == (if up.status != Finalizing then up.status
                                       else if up.file.Some? then Uploaded else Failed)
  {
  }

  /** A result is stored exactly when its record has none and it fits the quota. */
  lemma StoreResultAnswers(o: Owner, record: nat, size: nat)
    ensures var r := StoreResultTx(o, record, size);
            if o.reserved + size <= o.quota && forall i :: 0 <= i < |o.results| ==> o.results[i].record != record
            then r == o.(reserved := o.reserved + size, results := o.results + [StoredResult(record, size)])
            else r == o
  {
  }
}
