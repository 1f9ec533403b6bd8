/** The episode environment object and the repository rows it closes. */
module EpisodeService {
  import opened Prelude
  import opened EpisodeClose

  class Repository {
    var rows: Repo

    constructor (rows: Repo)
      ensures this.rows == rows
    {
      this.rows := rows;
    }

    /** One transaction, which may fail before or after it commits. */
    method Commit(fault: Fault, done: Repo) returns (ok: bool)
      modifies this
      ensures (rows, ok) == Write(fault, old(rows), done)
    {
      if !fault.Before? {
        rows := done;
      }
      ok := fault.Fine?;
    }
  }

  class ManagedEpisodeEnvironment {
    const task: Task
    const repository: Repository
    var delegateCloseAttempted: bool
    var finalized: bool
    var destroyed: bool
    var destructionRecorded: bool
    var closed: bool
    var terminalSuccess: bool
    var failed: bool
    ghost var destroys: nat

    ghost function Value(): Env
      reads this
    {
      Env(delegateCloseAttempted, finalized, destroyed, destructionRecorded, closed, terminalSuccess, failed, destroys)
    }

    constructor (task: Task, repository: Repository)
      ensures this.task == task && this.repository == repository
      ensures Value() == OPENED.0
    {
      this.task := task;
      this.repository := repository;
      delegateCloseAttempted, finalized, destroyed, destructionRecorded := false, false, false, false;
      closed, terminalSuccess, failed := false, false, false;
      destroys := 0;
    }

    method SettleEpisode(f: Faults) returns (ok: bool)
      modifies repository
      ensures (repository.rows, ok) == SettleStatus(Value(), old(repository.rows), f)
    {
      if !f(ReadStatus).Fine? {
        return false;
      }
      if repository.rows.status.Executing? {
        ok := repository.Commit(f(MarkVerifying), repository.rows.(status := Verifying));
        if !ok {
          return false;
        }
      }
      if !f(ReadVerifying).Fine? {
        return false;
      }
      ok := true;
      if repository.rows.status.Verifying? {
        var outcome := if failed then Failed else if terminalSuccess then Succeeded else Exhausted;
        ok := repository.Commit(f(MarkOutcome),
                                repository.rows.(status := outcome, terminalSuccess := terminalSuccess));
      }
    }

    method RecordTerminalFindings(f: Faults) returns (ok: bool)
      modifies repository
      ensures (repository.rows, ok) == RecordFindings(task, old(repository.rows), f)
    {
      if !f(ReadOutcome).Fine? {
        return false;
      }
      if !repository.rows.terminalSuccess {
        return true;
      }
      if !f(ReadTask).Fine? {
        return false;
      }
      var wanted := Wanted(task, repository.rows.signals);
      if wanted.None? || !f(ReadFindings).Fine? {
        return false;
      }
      ok := AddFindings(wanted.value, f);
    }

    method AddFindings(wanted: seq<Finding>, f: Faults) returns (ok: bool)
      modifies repository
      ensures (repository.rows, ok) == AddMissing(wanted, old(repository.rows.findings), old(repository.rows), f)
    {
      var existing := repository.rows.findings;
      ok := true;
      var i := 0;
      while ok && i < |wanted|
        invariant 0 <= i <= |wanted|
        invariant AddMissing(wanted, existing, old(repository.rows), f)
                  == if ok then AddMissing(wanted[i..], existing, repository.rows, f) else (repository.rows, false)
      {
        assert wanted[i..][1..] == wanted[i + 1..];
        if !Has(existing, wanted[i].verifier) {
          ok := repository.Commit(f(AddFinding(wanted[i].verifier)),
                                  repository.rows.(findings := repository.rows.findings + [wanted[i]]));
        }
        i := i + 1;
      }
    }

    method StoreEpisodeEvidence(f: Faults) returns (ok: bool)
      modifies repository
      ensures (repository.rows, ok) == StoreEvidence(task, old(repository.rows), f)
    {
      if !task.storesEvidence {
        return true;
      }
      if !f(ListEvidence).Fine? {
        return false;
      }
      if repository.rows.evidence > 0 {
        ok := repository.Commit(f(LinkEvidence), repository.rows.(findings := Linked(repository.rows.findings)));
        return;
      }
      if !Terminal(repository.rows.status) || f(BuildEvidence).Before? {
        return false;
      }
      repository.rows := repository.rows.(evidence := repository.rows.evidence + 1);
      ok := f(BuildEvidence).Fine?;
      if ok {
        repository.rows := repository.rows.(findings := Linked(repository.rows.findings));
      }
    }

    method RecordDestroyed(f: Faults) returns (raised: bool)
      requires !destructionRecorded
      modifies this`destructionRecorded, repository
      ensures (repository.rows, destructionRecorded, raised) == RecordDestruction(old(repository.rows), f)
    {
      if !f(ReadDestroyed).Fine? {
        return true;
      }
      raised := false;
      if repository.rows.status.Destroyed? {
        destructionRecorded := true;
      } else if Terminal(repository.rows.status) {
        var ok := repository.Commit(f(MarkDestroyed), repository.rows.(status := Destroyed));
        destructionRecorded := ok;
        raised := !ok;
      }
    }

    method FinalizeEpisode(f: Faults) returns (ok: bool)
      modifies repository
      ensures (repository.rows, ok) == Finalize(task, Value(), old(repository.rows), f)
    {
      ok := SettleEpisode(f);
      if ok {
        ok := RecordTerminalFindings(f);
      }
      if ok {
        ok := StoreEpisodeEvidence(f);
      }
    }

    method CloseDelegateOnce(f: Faults) returns (raised: bool)
      modifies this`delegateCloseAttempted, this`failed
      ensures raised == (!old(delegateCloseAttempted) && !f(CloseDelegate).Fine?)
      ensures Value() == DelegateStage(old(Value()), f)
    {
      raised := false;
      if !delegateCloseAttempted {
        delegateCloseAttempted := true;
        if !f(CloseDelegate).Fine? {
          raised := true;
          failed := true;
        }
      }
    }

    method FinalizeOnce(f: Faults)
      modifies this`finalized, repository
      ensures (Value(), repository.rows) == FinalizeStage(task, old(Value()), old(repository.rows), f)
    {
      if !finalized {
        finalized := FinalizeEpisode(f);
      }
    }

    method DestroyOnce(f: Faults)
      modifies this`destroyed, this`destroys
      ensures Value() == DestroyStage(old(Value()), f)
    {
      if !destroyed {
        destroyed := f(DestroyRuntime).Fine?;
        destroys := destroys + if destroyed then 1 else 0;
      }
    }

    method RecordOnce(f: Faults) returns (raised: bool)
      modifies this`destructionRecorded, repository
      ensures (Value(), repository.rows, raised) == RecordStage(old(Value()), old(repository.rows), f)
    {
      raised := false;
      if destroyed && !destructionRecorded {
        raised := RecordDestroyed(f);
      }
    }

    method CloseEpisode(f: Faults) returns (raised: bool)
      modifies this, repository
      ensures (Value(), repository.rows, raised) == Close(task, old(Value()), old(repository.rows), f)
    {
      if closed {
        return false;
      }
      raised := CloseDelegateOnce(f);
      FinalizeOnce(f);
      DestroyOnce(f);
      var failing := RecordOnce(f);
      raised := raised || !finalized || !destroyed || failing;
      closed := finalized && destroyed && destructionRecorded;
    }
  }
}
