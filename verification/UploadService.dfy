/** The upload routes over one owner's rows. */
module UploadService {
  import opened Prelude
  import opened Uploads

  /** The events of one request that streams these chunks and then ends. */
  function Streaming(actor: nat, chunks: seq<seq<nat>>): seq<Event> {
    if chunks == [] then [EndTransfer(actor, true)] else [Chunk(actor, chunks[0])] + Streaming(actor, chunks[1..])
  }

  class UploadStore {
    const quota: int
    var reservedBytes: int
    var uploads: seq<Upload>
    var results: seq<StoredResult>
    var actors: seq<Actor>

    function Value(): Owner
      reads this
    {
      Owner(quota, reservedBytes, uploads, results, actors)
    }

    constructor (quota: int)
      ensures Value() == Owner(quota, 0, [], [], [])
    {
      this.quota := quota;
      reservedBytes := 0;
      uploads := [];
      results := [];
      actors := [];
    }

    method InitiateUpload(key: nat, declared: Declared, runFound: bool) returns (r: Initiated)
      modifies this`uploads, this`reservedBytes
      ensures (Value(), r) == InitiateTx(old(Value()), key, declared, runFound)
      ensures KeysDiffer(old(uploads)) ==>
                InitiateMeans(old(Value()), key, declared, runFound, Value(), r) && KeysDiffer(uploads)
    {
      if KeysDiffer(uploads) {
        InitiateAnswers(Value(), key, declared, runFound);
      }
      var prior := FindKey(uploads, key);
      if prior.Some? {
        return if uploads[prior.value].declared == declared then Known(prior.value) else KeyConflict;
      }
      if reservedBytes + declared.size > quota {
        return QuotaExhausted;
      }
      if !runFound {
        return RunMissing;
      }
      r := Created(|uploads|);
      uploads := uploads + [Upload(key, declared, Pending, None, None, 0)];
      reservedBytes := reservedBytes + declared.size;
    }

    /** Receives the body chunk by chunk, then settles the upload; the whole request without interruption. */
    method ReceiveStream(actor: nat, chunks: seq<seq<nat>>)
      requires Transferring(Value(), actor)
      modifies this`uploads, this`actors
      ensures Value() == Run(old(Value()), Streaming(actor, chunks))
    {
      var i := 0;
      while i < |chunks| && actors[actor].Transfer?
        invariant 0 <= i <= |chunks|
        invariant actor < |actors| && !actors[actor].Finalizer? && (actors[actor].Transfer? ==> Transferring(Value(), actor))
        invariant Run(old(Value()), Streaming(actor, chunks)) == Run(Value(), Streaming(actor, chunks[i..]))
      {
        ReceiveChunk(actor, chunks[i]);
        assert chunks[i..][1..] == chunks[i + 1..];
        assert Streaming(actor, chunks[i..])[1..] == Streaming(actor, chunks[i + 1..]);
        i := i + 1;
      }
      if actors[actor].Transfer? {
        assert Streaming(actor, chunks[i..]) == [EndTransfer(actor, true)] && [EndTransfer(actor, true)][1..] == [];
        EndStream(actor);
      } else {
        StreamEnds(Value(), actor, chunks[i..]);
      }
    }

    method ReceiveChunk(actor: nat, bytes: seq<nat>)
      requires Transferring(Value(), actor)
      modifies this`uploads, this`actors
      ensures Value() == ChunkTx(old(Value()), actor, bytes)
    {
      var u, got := actors[actor].upload, actors[actor].got + bytes;
      if |got| > uploads[u].declared.size {
        AbandonStream(actor);
        return;
      }
      uploads := uploads[u := uploads[u].(file := Written(uploads[u].file, got))];
      actors := actors[actor := Transfer(u, got)];
    }

    method AbandonStream(actor: nat)
      requires Transferring(Value(), actor)
      modifies this`uploads, this`actors
      ensures Value() == AbortTransfer(old(Value()), actor)
    {
      var u := actors[actor].upload;
      uploads := uploads[u := uploads[u].(file := None)];
      if uploads[u].status.Uploading? {
        uploads := uploads[u := uploads[u].(status := Failed)];
      }
      actors := actors[actor := Gone];
    }

    method EndStream(actor: nat)
      requires Transferring(Value(), actor)
      modifies this`uploads, this`actors
      ensures Value() == EndTransferTx(old(Value()), actor, true)
    {
      var u, got := actors[actor].upload, actors[actor].got;
      if |got| != uploads[u].declared.size || got != uploads[u].declared.digest || !uploads[u].status.Uploading? {
        AbandonStream(actor);
        return;
      }
      uploads := uploads[u := uploads[u].(status := Uploaded)];
      actors := actors[actor := Gone];
    }

    method CancelUpload(u: nat) returns (refused: bool)
      requires u < |uploads|
      modifies this`uploads, this`reservedBytes
      ensures Value() == Refund(old(Value()), u, Cancelled)
      ensures refused <==> old(uploads[u].status).Completed?
    {
      var up := uploads[u];
      if up.status.Completed? {
        return true;
      }
      if !Refunded(up.status) {
        reservedBytes := reservedBytes - up.declared.size;
        uploads := uploads[u := up.(status := Cancelled, file := None, refunds := up.refunds + 1)];
      }
      refused := false;
    }
  }

  /** Nothing more happens for a request that has ended. */
  lemma {:induction false} StreamEnds(o: Owner, actor: nat, chunks: seq<seq<nat>>)
    requires actor < |o.actors| && o.actors[actor].Gone?
    ensures Run(o, Streaming(actor, chunks)) == o
    decreases |chunks|
  {
    var events := Streaming(actor, chunks);
    if chunks != [] {
      assert events[1..] == Streaming(actor, chunks[1..]);
      StreamEnds(o, actor, chunks[1..]);
    }
  }
}
