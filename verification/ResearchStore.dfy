/**
 The database the HTTP service and the workers share. Each method is one transaction under
 the owner lock and updates the rows in place; its contract is the transaction's function.
 */
module ResearchStore {
  import opened Prelude
  import opened SessionStore
  import SessionAnswers
  import OwnerLedger

  datatype ClaimReply = LeaseLost | Claimed(command: Option<nat>)

  class Store {
    const quota: Quota
    var reservedCost: real
    var spentCost: real
    var rows: seq<Durable>

    function Ledger(): Owner
      reads this
    {
      Owner(reservedCost, spentCost)
    }

    constructor (quota: Quota)
      ensures this.quota == quota && Ledger() == Owner(0.0, 0.0) && rows == []
    {
      this.quota := quota;
      reservedCost, spentCost, rows := 0.0, 0.0, [];
    }

    method FindRow(key: nat) returns (r: Option<nat>)
      ensures r == KeyedRow(rows, key)
    {
      var n := |rows|;
      assert rows[..n] == rows;
      while n > 0
        invariant 0 <= n <= |rows|
        invariant KeyedRow(rows, key) == KeyedRow(rows[..n], key)
      {
        assert rows[..n][..n - 1] == rows[..n - 1];
        if rows[n - 1].row.key == key {
          return Some(n - 1);
        }
        n := n - 1;
      }
      r := None;
    }

    method CountLive() returns (count: nat)
      ensures count == LiveRows(rows)
    {
      count := 0;
      for i := 0 to |rows|
        invariant count == LiveRows(rows[..i])
      {
        assert rows[..i + 1][..i] == rows[..i];
        if !Terminal(rows[i].row.state) {
          count := count + 1;
        }
      }
      assert rows[..|rows|] == rows;
    }

    method CreateSession(q: NewSession, found: bool) returns (reply: CreateReply)
      modifies this
      ensures reply == CreateOutcome(quota, old(Ledger()), old(rows), q, found)
      ensures reply.Created? ==> rows == old(rows) + [FreshSession(q)]
                                 && Ledger() == Owner(old(reservedCost) + q.maxCost, old(spentCost))
      ensures !reply.Created? ==> rows == old(rows) && Ledger() == old(Ledger())
      ensures OwnerLedger.RowKeysDiffer(old(rows)) ==>
                OwnerLedger.CreateMeans(quota, old(Ledger()), old(rows), q, found, reply)
    {
      if OwnerLedger.RowKeysDiffer(rows) {
        OwnerLedger.CreateAnswers(quota, Ledger(), rows, q, found);
      }
      var prior := FindRow(q.key);
      if prior.Some? {
        if rows[prior.value].row.hash != q.hash {
          return RequestConflict;
        }
        return SameRequest(prior.value);
      }
      var active := CountLive();
      if active >= quota.maxSessions {
        return SessionQuota;
      }
      if spentCost + reservedCost + q.maxCost > quota.costLimit {
        return CostQuota;
      }
      if !found {
        return UnknownReference;
      }
      reply := Created(|rows|);
      rows := rows + [FreshSession(q)];
      reservedCost := reservedCost + q.maxCost;
    }

    /** Runs over the commands newest first, as the request key is unique. */
    method FindCommand(i: nat, key: nat) returns (r: Option<nat>)
      requires i < |rows|
      ensures r == Find(rows[i].commands, key)
    {
      var cs := rows[i].commands;
      var n := |cs|;
      assert cs[..n] == cs;
      while n > 0
        invariant 0 <= n <= |cs|
        invariant Find(cs, key) == Find(cs[..n], key)
      {
        assert cs[..n][..n - 1] == cs[..n - 1];
        if HasKey(cs[n - 1], key) {
          return Some(n - 1);
        }
        n := n - 1;
      }
      r := None;
    }

    method HasLive(i: nat) returns (live: bool)
      requires i < |rows|
      ensures live == AnyLive(rows[i].commands)
    {
      var cs := rows[i].commands;
      live := false;
      for k := 0 to |cs|
        invariant live <==> exists j :: 0 <= j < k && Live(cs[j].status)
      {
        live := live || Live(cs[k].status);
      }
    }

    method Submit(i: nat, q: Request) returns (reply: Reply)
      requires i < |rows|
      modifies this`rows
      ensures (rows, reply) == (old(rows)[i := SubmitTx(old(rows)[i], q).0], SubmitTx(old(rows)[i], q).1)
      ensures SessionAnswers.KeysOnce(old(rows)[i].commands) ==>
                SessionAnswers.SubmitMeans(old(rows)[i], q, rows[i], reply) && SessionAnswers.KeysOnce(rows[i].commands)
    {
      if SessionAnswers.KeysOnce(rows[i].commands) {
        SessionAnswers.SubmitAnswers(rows[i], q);
        SessionAnswers.SubmitKeepsKeys(rows[i], q);
      }
      reply := SubmitLocked(i, q);
    }

    /** The checks in their order, under the owner lock. */
    method SubmitLocked(i: nat, q: Request) returns (reply: Reply)
      requires i < |rows|
      modifies this`rows
      ensures (rows, reply) == (old(rows)[i := SubmitTx(old(rows)[i], q).0], SubmitTx(old(rows)[i], q).1)
    {
      var d := rows[i];
      var prior := FindCommand(i, q.key);
      if prior.Some? {
        assert rows == rows[i := d];
        if d.commands[prior.value].hash != q.hash {
          return KeyConflict;
        }
        return Replayed(prior.value);
      }
      assert rows == rows[i := d];
      var ended := Terminal(d.row.state);
      if ended && !Ends(q.kind) {
        return SessionTerminal;
      }
      if d.row.mode == Managed && (q.kind == Reset || q.kind == Step) {
        return ManagedOwnsActions;
      }
      var pending := HasLive(i);
      if pending && !Ends(q.kind) {
        return CommandInProgress;
      }
      if q.kind == Step {
        if d.row.state != Active || d.row.episode != q.payload.episode {
          return ResetRequired;
        }
        if d.row.stepIndex + 1 != q.payload.expected {
          return UnexpectedStepIndex;
        }
        if !q.generationAccepted {
          return GenerationMismatch;
        }
      }
      if q.kind == Reset && d.row.evaluation {
        if d.row.episode.Some? {
          return EpisodeAlreadyExecuted;
        }
        if q.payload.seed.Some? && q.payload.seed.value != d.row.seed {
          return SeedPinned;
        }
      }
      var command := Command(Some(q.key), q.hash, q.kind, q.payload, Pending, 0);
      var row := d.row;
      if ended {
        command := command.(status := Finished);
      } else if Ends(q.kind) {
        row := row.(stop := Some(if q.kind == CancelSession then ClientCancelled else ClientClosed));
      }
      reply := Accepted(|d.commands|);
      rows := rows[i := d.(row := row, commands := d.commands + [command])];
    }

    method ClaimCommand(i: nat, fence: nat) returns (reply: ClaimReply)
      requires i < |rows|
      modifies this`rows
      ensures var d := old(rows)[i];
              if FenceOk(d, fence) then
                reply == Claimed(FirstPending(d.commands)) && rows == old(rows)[i := ClaimTx(d, fence)]
              else reply == LeaseLost && rows == old(rows)
    {
      var d := rows[i];
      if !FenceOk(d, fence) {
        return LeaseLost;
      }
      var k := 0;
      while k < |d.commands| && d.commands[k].status != Pending
        invariant 0 <= k <= |d.commands|
        invariant forall j :: 0 <= j < k ==> !IsPending(d.commands[j])
      {
        k := k + 1;
      }
      if k == |d.commands| {
        assert FirstPending(d.commands).None?;
        assert rows == rows[i := d];
        return Claimed(None);
      }
      assert IsPending(d.commands[k]) && FirstPending(d.commands) == Some(k);
      rows := rows[i := d.(commands := d.commands[k := d.commands[k].(status := Running, fence := fence)])];
      reply := Claimed(Some(k));
    }

    method InternalCommand(i: nat, fence: nat, kind: Kind, payload: Payload) returns (added: Option<nat>)
      requires i < |rows|
      modifies this`rows
      ensures var d := old(rows)[i];
              if FenceOk(d, fence) then
                added == Some(|d.commands|) && rows == old(rows)[i := InternalTx(d, fence, kind, payload)]
              else added == None && rows == old(rows)
    {
      var d := rows[i];
      if !FenceOk(d, fence) {
        return None;
      }
      added := Some(|d.commands|);
      rows := rows[i := d.(commands := d.commands + [Command(None, 0, kind, payload, Running, fence)])];
    }

    method Complete(i: nat, fence: nat, c: nat, status: Status, state: Option<State>, index: Option<nat>)
      returns (done: bool)
      requires i < |rows|
      modifies this`rows
      ensures done == CanComplete(old(rows)[i], fence, c)
      ensures rows == if done then old(rows)[i := CompleteTx(old(rows)[i], c, status, state, index)] else old(rows)
    {
      var d := rows[i];
      if !FenceOk(d, fence) || c >= |d.commands| || d.commands[c].status != Running {
        return false;
      }
      var row := d.row;
      if state.Some? {
        row := row.(state := state.value);
      }
      if index.Some? {
        row := row.(stepIndex := index.value);
      }
      rows := rows[i := d.(row := row, commands := d.commands[c := d.commands[c].(status := status)])];
      done := true;
    }

    method AttachEpisode(i: nat, fence: nat, episode: nat) returns (done: bool)
      requires i < |rows|
      modifies this`rows
      ensures done == FenceOk(old(rows)[i], fence)
      ensures rows == if done then old(rows)[i := AttachTx(old(rows)[i], episode)] else old(rows)
    {
      var d := rows[i];
      done := FenceOk(d, fence);
      if done {
        rows := rows[i := d.(row := d.row.(episode := Some(episode)))];
      }
    }

    /** A claimed job takes its session over; true when an earlier worker may have left it half done. */
    method BeginRun(i: nat, attempt: nat, worker: nat) returns (interrupted: bool)
      requires i < |rows|
      modifies this`rows
      ensures rows == old(rows)[i := BeginTx(old(rows)[i], attempt, worker)]
      ensures interrupted <==> !Terminal(old(rows)[i].row.state) && InterruptedStart(old(rows)[i], attempt)
    {
      var d := rows[i];
      if Terminal(d.row.state) {
        assert rows == rows[i := d];
        return false;
      }
      interrupted := d.row.fence > 0 || attempt > 1;
      rows := rows[i := d.(row := d.row.(fence := attempt, worker := Some(worker), state := Ready))];
    }

    /** Moves the reservation to the ledger; `interrupted` charges the whole maximum. */
    method Release(i: nat, interrupted: bool)
      requires i < |rows|
      modifies this
      ensures var d := old(rows)[i];
              rows == old(rows)[i := ReleaseTx(d, if interrupted then d.row.maxCost else d.costUsed)]
      ensures Ledger() == Settle(old(Ledger()), old(rows)[i], rows[i])
    {
      var d := rows[i];
      if d.row.released {
        assert rows == rows[i := d];
        return;
      }
      reservedCost := if reservedCost - d.row.maxCost > 0.0 then reservedCost - d.row.maxCost else 0.0;
      var charge := if interrupted then d.row.maxCost else d.costUsed;
      spentCost := spentCost + charge;
      rows := rows[i := d.(row := d.row.(released := true), settled := Some(charge))];
    }

    /** Gives every live command its final status; true when one of them was running. */
    method EndLive(cs: seq<Command>) returns (commands: seq<Command>, uncertain: bool)
      ensures commands == EndCommands(cs) && uncertain == AnyRunning(cs)
    {
      commands, uncertain := cs, false;
      for k := 0 to |cs|
        invariant |commands| == |cs|
        invariant forall j :: 0 <= j < k ==> commands[j] == EndCommand(cs[j])
        invariant forall j :: k <= j < |cs| ==> commands[j] == cs[j]
        invariant uncertain <==> exists j :: 0 <= j < k && cs[j].status == Running
      {
        var c := commands[k];
        if c.status == Running || c.status == Pending {
          uncertain := uncertain || c.status == Running;
          var status := if Ends(c.kind) then Finished else if c.status == Running then Indeterminate else Dropped;
          commands := commands[k := c.(status := status)];
        }
      }
    }

    /** A client's close or cancel decides how the session ends. */
    method ChooseEnd(stop: Option<Reason>, state: State, reason: Reason) returns (end: State, why: Reason)
      ensures end == EndState(stop, state) && why == EndReason(stop, reason)
    {
      end, why := state, reason;
      if stop == Some(ClientClosed) || stop == Some(ClientCancelled) {
        why := stop.value;
        end := if why == ClientClosed then Closed else Cancelled;
      }
    }

    /** Ends a session: finishes its live commands, notes whether one was running, and settles. */
    method Retire(i: nat, fence: nat, state: State, reason: Reason)
      requires i < |rows|
      modifies this
      ensures rows == old(rows)[i := RetireTx(old(rows)[i], fence, state, reason)]
      ensures SessionAnswers.RetireMeans(old(rows)[i], fence, state, reason, rows[i])
      ensures Ledger() == Settle(old(Ledger()), old(rows)[i], rows[i])
    {
      SessionAnswers.RetireAnswers(rows[i], fence, state, reason);
      RetireLocked(i, fence, state, reason);
    }

    method RetireLocked(i: nat, fence: nat, state: State, reason: Reason)
      requires i < |rows|
      modifies this
      ensures rows == old(rows)[i := RetireTx(old(rows)[i], fence, state, reason)]
      ensures Ledger() == Settle(old(Ledger()), old(rows)[i], rows[i])
    {
      var d := rows[i];
      if d.row.fence != fence || Terminal(d.row.state) {
        assert rows == rows[i := d];
        return;
      }
      var end, why := ChooseEnd(d.row.stop, state, reason);
      var commands, uncertain := EndLive(d.commands);
      var ended := d.(row := d.row.(state := end, stop := Some(why)), commands := commands);
      assert ended == EndedRow(d, state, reason);
      rows := rows[i := ended];
      Release(i, uncertain || end == Interrupted);
    }
  }
}
