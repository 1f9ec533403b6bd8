/** The objects a managed session spends through: the campaign row, the attacker client and the bridge. */
module ManagedService {
  import opened Prelude
  import opened InferenceContracts
  import opened ManagedUsage
  import opened ManagedBudget

  class CampaignRow {
    var tokensUsed: int
    var costUsed: real
    var invocations: seq<Invocation>

    function Value(): Ledger
      reads this
    {
      Ledger(tokensUsed, costUsed, invocations)
    }

    constructor ()
      ensures Value() == EMPTY_LEDGER
    {
      tokensUsed := 0;
      costUsed := 0.0;
      invocations := [];
    }

    /** `ok` is false when the key was recorded before with other content. */
    method AddCampaignUsage(row: Invocation) returns (ok: bool)
      modifies this
      ensures (Value(), ok) == AddUsage(old(Value()), row)
    {
      var existing := Lookup(invocations, row.key);
      if existing.Some? {
        return existing.value == row;
      }
      tokensUsed := tokensUsed + row.tokens;
      costUsed := costUsed + row.cost;
      invocations := invocations + [row];
      ok := true;
    }

    method RecordTargetInference(episode: nat, records: seq<Audit>) returns (ok: bool)
      modifies this
      ensures (Value(), ok) == RecordAll(old(Value()), episode, records)
    {
      ok := true;
      var i := 0;
      while ok && i < |records|
        invariant 0 <= i <= |records|
        invariant RecordAll(old(Value()), episode, records)
                  == if ok then RecordAll(Value(), episode, records[i..]) else (Value(), false)
      {
        assert records[i..][1..] == records[i + 1..];
        ok := AddCampaignUsage(TargetRow(episode, records[i]));
        i := i + 1;
      }
    }
  }

  class RegisteredAttacker {
    const config: Attacker
    var lastUsage: Option<Usage>

    constructor (config: Attacker)
      ensures this.config == config && lastUsage == None
    {
      this.config := config;
      lastUsage := None;
    }

    /** The reservation is written before the request is sent, and replaced only by a plausible report. */
    method Propose(size: nat, answer: Answer) returns (ok: bool)
      modifies this
      ensures lastUsage == UsageOf(config, size, answer)
      ensures ok <==> size <= config.maxInputBytes && answer.Answered? && answer.actionValid
    {
      lastUsage := None;
      if size > config.maxInputBytes {
        return false;
      }
      lastUsage := Some(Reserved(config));
      if answer.Unreachable? {
        return false;
      }
      if answer.reported.Some? {
        var (input, output) := answer.reported.value;
        if 0 <= input <= config.maxInputBytes + 1024 && 0 <= output <= config.maxOutput {
          lastUsage := Some(Usage(input + output, AttackerPrice(config, input, output)));
        }
      }
      ok := answer.actionValid;
    }
  }

  datatype Proposal = Proposed | BudgetExhausted | GenerationFailed

  class ResearchRedBridge {
    const plan: Plan
    const model: RegisteredAttacker
    const campaign: CampaignRow

    ghost predicate Valid() {
      model.config == plan.attacker
    }

    ghost function Value(episode: nat, open: bool, pending: bool): Managed
      reads model, campaign
    {
      Managed(campaign.Value(), episode, open, pending, model.lastUsage)
    }

    constructor (plan: Plan, model: RegisteredAttacker, campaign: CampaignRow)
      requires model.config == plan.attacker
      ensures Valid() && this.plan == plan && this.model == model && this.campaign == campaign
    {
      this.plan := plan;
      this.model := model;
      this.campaign := campaign;
    }

    /** Admission, the guarded generation, and the accounting that follows it whether or not it failed. */
    method ProposeActions(episode: nat, open: bool, outcome: Outcome, hash: nat) returns (r: Proposal)
      requires Valid()
      modifies model, campaign
      ensures var before := old(Value(episode, open, false));
              Value(episode, open, false) == FinishNext(plan, AdmitNext(plan, before), outcome, hash)
      ensures r.BudgetExhausted? <==> !Fits(plan, old(campaign.Value()), Reserved(plan.attacker))
      ensures r.Proposed? ==> outcome.Ran? && outcome.fenceHeld
    {
      var reserve := Reserved(model.config);
      var target := TargetMaximum(plan);
      if campaign.tokensUsed + target.tokens + reserve.tokens > plan.maxTokens
         || campaign.costUsed + target.cost + reserve.cost > plan.maxCost {
        return BudgetExhausted;
      }
      var ok := false;
      if outcome.Ran? {
        ok := model.Propose(outcome.size, outcome.answer);
      }
      if outcome.fenceHeld && model.lastUsage.Some? {
        var usage := model.lastUsage.value;
        var _ := campaign.AddCampaignUsage(Invocation(None, hash, usage.tokens, usage.cost));
      }
      r := if ok && outcome.fenceHeld then Proposed else GenerationFailed;
    }
  }
}
