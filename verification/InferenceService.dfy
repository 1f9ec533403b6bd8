/** The mailbox and the broker's episode as the objects the gateway and the supervisor update. */
module InferenceService {
  import opened Prelude
  import opened InferenceContracts
  import B = InferenceBroker
  import M = InferenceMailbox

  class MailboxObject {
    const profile: Profile
    var requests: seq<M.Pending>
    var records: seq<M.Record>
    var closed: bool
    ghost var claims: seq<nat>

    ghost function State(): M.Mailbox
      reads this
    {
      M.Mailbox(requests, records, closed, claims)
    }

    constructor (profile: Profile)
      ensures this.profile == profile && State() == M.Mailbox([], [], false, [])
    {
      this.profile := profile;
      requests, records, closed, claims := [], [], false, [];
    }

    method Search(id: nat) returns (r: Option<nat>)
      ensures r == M.Find(requests, id)
    {
      var n := |requests|;
      assert requests[..n] == requests;
      while n > 0
        invariant 0 <= n <= |requests|
        invariant M.Find(requests, id) == M.Find(requests[..n], id)
      {
        assert requests[..n][..n - 1] == requests[..n - 1];
        if requests[n - 1].work.id == id {
          return Some(n - 1);
        }
        n := n - 1;
      }
      r := None;
    }

    method CountWaiting() returns (count: nat)
      ensures count == M.WaitingCount(requests)
    {
      count := 0;
      for i := 0 to |requests|
        invariant count == M.WaitingCount(requests[..i])
      {
        assert requests[..i + 1][..i] == requests[..i];
        if requests[i].future.Waiting? {
          count := count + 1;
        }
      }
      assert requests[..|requests|] == requests;
    }

    method Submit(w: Work) returns (reply: M.SubmitReply)
      modifies this
      ensures (State(), reply) == M.SubmitTx(profile, old(State()), w)
      ensures M.DistinctIds(old(requests)) ==> M.SubmitMeans(profile, old(State()), w, State(), reply)
    {
      if M.DistinctIds(requests) {
        M.SubmitAnswers(profile, State(), w);
      }
      reply := SubmitLocked(w);
    }

    /** The checks in their order. */
    method SubmitLocked(w: Work) returns (reply: M.SubmitReply)
      modifies this
      ensures (State(), reply) == M.SubmitTx(profile, old(State()), w)
    {
      if closed {
        return M.Closed;
      }
      if !w.modelAllowed {
        return M.ModelOutside;
      }
      if w.size > profile.maxInputBytes {
        return M.InputLimit;
      }
      var prior := Search(w.id);
      if prior.Some? {
        if requests[prior.value].work.hash != w.hash {
          return M.IdReused;
        }
        return M.Known(prior.value);
      }
      if |requests| >= profile.maxRequests {
        return M.BudgetExhausted;
      }
      var waiting := CountWaiting();
      if waiting >= 4 {
        return M.QueueFull;
      }
      reply := M.Queued(|requests|);
      requests := requests + [M.Pending(w, false, M.Waiting)];
    }

    method Complete(r: Result) returns (reply: M.CompleteReply)
      modifies this
      ensures (State(), reply) == M.CompleteTx(old(State()), r)
    {
      var found := Search(r.audit.id);
      if found.None? {
        return M.Unknown;
      }
      var i := found.value;
      var q := requests[i];
      if r.audit.hash != q.work.hash {
        return M.Mismatch;
      }
      if !q.future.Waiting? {
        return if q.future.Done? && q.future.result == r then M.Repeated else M.Conflict;
      }
      records := records + [M.Record(|records| + 1, r.audit)];
      requests := requests[i := q.(future := M.Done(r))];
      reply := M.Recorded;
    }

    method Fail(i: nat, code: nat)
      requires i < |requests|
      modifies this
      ensures State() == M.FailTx(profile, old(State()), i, code)
    {
      if !requests[i].future.Waiting? {
        return;
      }
      var q := requests[i];
      var input, output := 0, 0;
      if q.claimed {
        input, output := q.work.size + 64 * q.work.messages + 256, profile.maxOutput;
      }
      var cost := Price(profile, input, output);
      var source := if q.claimed then Reservation else NotDispatched;
      var result := Result(None, Audit(q.work.id, q.work.hash, AuditStatus.Failed, code, input, output, cost, source));
      assert result == M.Failure(profile, q, code);
      var reply := Complete(result);
    }

    /** Fails whatever still waits, in the order of submission, and takes no more requests. */
    method FailPending()
      modifies this
      ensures State() == M.FailPendingTx(profile, old(State()))
    {
      closed := true;
      var i := 0;
      ghost var shut := State();
      while i < |requests|
        invariant 0 <= i <= |requests|
        invariant M.FailFrom(profile, State(), i, M.RELAY_FAILED) == M.FailFrom(profile, shut, 0, M.RELAY_FAILED)
        decreases |requests| - i
      {
        Fail(i, M.RELAY_FAILED);
        i := i + 1;
      }
    }

    method Claim() returns (work: Option<Work>)
      modifies this
      ensures (State(), work) == M.ClaimTx(old(State()))
    {
      if closed {
        return None;
      }
      var i := 0;
      while i < |requests| && (requests[i].claimed || !requests[i].future.Waiting?)
        invariant 0 <= i <= |requests|
        invariant forall j :: 0 <= j < i ==> !M.Claimable(requests[j])
      {
        i := i + 1;
      }
      if i == |requests| {
        assert M.FirstClaimable(requests).None?;
        return None;
      }
      assert M.Claimable(requests[i]) && M.FirstClaimable(requests) == Some(i);
      work := Some(requests[i].work);
      claims := claims + [requests[i].work.id];
      requests := requests[i := requests[i].(claimed := true)];
    }

    method Close()
      modifies this
      ensures State() == M.CloseTx(old(State()))
    {
      closed := true;
      for i := 0 to |requests|
        invariant |requests| == |old(requests)| && closed
        invariant records == old(records) && claims == old(claims)
        invariant forall j :: 0 <= j < i ==> requests[j] == M.Abandon(old(requests)[j])
        invariant forall j :: i <= j < |requests| ==> requests[j] == old(requests)[j]
      {
        if requests[i].future.Waiting? {
          requests := requests[i := requests[i].(future := M.Abandoned)];
        }
      }
    }
  }

  datatype CompleteReply = Answer(result: Result) | Raised

  function ResultIn(reply: CompleteReply): Option<Result> {
    if reply.Answer? then Some(reply.result) else None
  }

  /** The broker's counters for one episode; the lock around `Complete` makes it one step. */
  class BrokerEpisode {
    const profile: Profile
    var entries: seq<B.Entry>
    var requests: nat
    var tokens: int
    var cost: real
    var closed: bool
    ghost var dispatches: seq<nat>
    ghost var leaked: seq<Work>

    ghost function State(): B.Broker
      reads this
    {
      B.Broker(entries, requests, tokens, cost, closed, None, dispatches, leaked)
    }

    ghost predicate Valid()
      reads this
    {
      ValidProfile(profile) && B.BrokerInv(profile, State())
    }

    constructor (profile: Profile)
      requires ValidProfile(profile)
      ensures this.profile == profile && State() == B.Opened() && Valid()
    {
      this.profile := profile;
      entries, requests, tokens, cost, closed, dispatches, leaked := [], 0, 0, 0.0, false, [], [];
      new;
      B.OpenedInv(profile);
    }

    method Search(id: nat) returns (r: Option<nat>)
      ensures r == B.Lookup(entries, id)
    {
      var n := |entries|;
      assert entries[..n] == entries;
      while n > 0
        invariant 0 <= n <= |entries|
        invariant B.Lookup(entries, id) == B.Lookup(entries[..n], id)
      {
        assert entries[..n][..n - 1] == entries[..n - 1];
        if entries[n - 1].work.id == id {
          return Some(n - 1);
        }
        n := n - 1;
      }
      r := None;
    }

    /** The first limit the request breaks, if any. */
    method Reject(w: Work, reserveInput: nat, reserveCost: real) returns (rejected: Option<nat>)
      requires reserveInput == ReserveInput(w) && reserveCost == ReserveCost(profile, w)
      ensures rejected == B.Rejection(profile, State(), w)
    {
      rejected := None;
      if !w.modelAllowed {
        rejected := Some(1);
      } else if w.size > profile.maxInputBytes {
        rejected := Some(2);
      } else if requests >= profile.maxRequests {
        rejected := Some(3);
      } else if tokens + reserveInput + profile.maxOutput > profile.maxTotalTokens {
        rejected := Some(4);
      } else if cost + reserveCost > profile.maxCost {
        rejected := Some(5);
      }
    }

    /** One call under the lock; `outcome` is how it ends if it is dispatched. */
    method Complete(w: Work, outcome: B.Outcome) returns (reply: CompleteReply)
      requires Valid()
      modifies this
      ensures Valid()
      ensures State() == B.Serve(profile, old(State()), [(w, outcome)])
      ensures B.CallMeans(profile, old(State()), w, outcome, State(), ResultIn(reply))
    {
      ghost var before := State();
      reply := CompleteLocked(w, outcome);
      B.CompleteMeans(profile, before, w, outcome, ResultIn(reply));
    }

    /** Reserve, dispatch and reconcile. */
    method CompleteLocked(w: Work, outcome: B.Outcome) returns (reply: CompleteReply)
      requires Valid()
      modifies this
      ensures Valid()
      ensures State() == B.Serve(profile, old(State()), [(w, outcome)])
      ensures reply.Raised? <==> B.CallRaises(profile, old(State()), w, outcome)
      ensures reply.Answer? ==> B.Lookup(entries, w.id).Some?
                                && entries[B.Lookup(entries, w.id).value].result == reply.result
    {
      if closed {
        B.ServeIs(profile, State(), w, outcome);
        return Raised;
      }
      var prior := Search(w.id);
      if prior.Some? {
        B.ServeIs(profile, State(), w, outcome);
        if entries[prior.value].work.hash != w.hash {
          return Raised;
        }
        return Answer(entries[prior.value].result);
      }
      reply := CompleteNew(w, outcome);
    }

    /** A request id that was not seen before. */
    method CompleteNew(w: Work, outcome: B.Outcome) returns (reply: CompleteReply)
      requires Valid() && !closed && B.Lookup(entries, w.id).None?
      modifies this
      ensures Valid()
      ensures State() == B.Serve(profile, old(State()), [(w, outcome)])
      ensures reply.Raised? <==> B.CallRaises(profile, old(State()), w, outcome)
      ensures reply.Answer? ==> B.Lookup(entries, w.id).Some?
                                && entries[B.Lookup(entries, w.id).value].result == reply.result
    {
      var reserveInput := w.size + 64 * w.messages + 256;
      var reserveCost := Price(profile, reserveInput, profile.maxOutput);
      var rejected := Reject(w, reserveInput, reserveCost);
      if rejected.Some? {
        B.ServeRefused(profile, State(), w, outcome, rejected.value);
        var result := B.Zero(w, rejected.value);
        Store(B.Entry(w, result, false));
        reply := Answer(result);
      } else {
        reply := CompleteAdmitted(w, outcome, reserveInput + profile.maxOutput, reserveCost);
      }
    }

    method CompleteAdmitted(w: Work, outcome: B.Outcome, reserveTokens: nat, reserveCost: real)
      returns (reply: CompleteReply)
      requires Valid() && !closed && B.Lookup(entries, w.id).None? && B.Rejection(profile, State(), w).None?
      requires reserveTokens == ReserveTokens(profile, w) && reserveCost == ReserveCost(profile, w)
      modifies this
      ensures Valid()
      ensures State() == B.Serve(profile, old(State()), [(w, outcome)])
      ensures reply.Raised? <==> B.CallRaises(profile, old(State()), w, outcome)
      ensures reply.Answer? ==> B.Lookup(entries, w.id).Some?
                                && entries[B.Lookup(entries, w.id).value].result == reply.result
    {
      if outcome.Escapes? {
        B.ServeEscapes(profile, State(), w);
        LeaveReserved(w, reserveTokens, reserveCost);
        return Raised;
      }
      B.ServeDispatched(profile, State(), w, outcome);
      B.CostsNonNegative(profile, State(), w);
      B.ResultIs(profile, w, outcome);
      B.CancelledIsReservation(profile, w);
      var result := B.ResultOf(profile, w, outcome);
      Dispatch(w, result, outcome.CallCancelled?, reserveTokens, reserveCost);
      reply := if outcome.CallCancelled? then Raised else Answer(result);
    }

    /** A cancelled call is stored at its reservation, every other one is reconciled. */
    method Dispatch(w: Work, result: Result, cancelled: bool, reserveTokens: nat, reserveCost: real)
      requires result.audit.id == w.id && cost >= 0.0 && reserveCost >= 0.0
      requires cancelled ==> Tokens(result) == reserveTokens && result.audit.cost == reserveCost
      modifies this
      ensures State() == B.Reconcile(B.Reserve(old(State()), w, reserveTokens, reserveCost),
                                     w, result, reserveTokens, reserveCost)
      ensures B.Lookup(entries, w.id) == Some(|old(entries)|) && entries == old(entries) + [B.Entry(w, result, true)]
    {
      if cancelled {
        B.ReservationStays(State(), w, result, reserveTokens, reserveCost);
      }
      requests := requests + 1;
      tokens := tokens + reserveTokens;
      cost := cost + reserveCost;
      dispatches := dispatches + [w.id];
      if !cancelled {
        tokens := tokens + Tokens(result) - reserveTokens;
        cost := Max(0.0, cost + result.audit.cost - reserveCost);
      }
      Store(B.Entry(w, result, true));
    }

    /** The exception passes through: the reservation was taken and nothing follows it. */
    method LeaveReserved(w: Work, reserveTokens: nat, reserveCost: real)
      modifies this
      ensures State() == B.Reserve(old(State()), w, reserveTokens, reserveCost)
                         .(inflight := None, leaked := old(leaked) + [w])
    {
      requests := requests + 1;
      tokens := tokens + reserveTokens;
      cost := cost + reserveCost;
      dispatches := dispatches + [w.id];
      leaked := leaked + [w];
    }

    method Store(e: B.Entry)
      modifies this`entries
      ensures entries == old(entries) + [e]
      ensures B.Lookup(entries, e.work.id) == Some(|old(entries)|)
    {
      entries := entries + [e];
    }
  }
}
