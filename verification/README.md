# Verification model of the controlled-experiment control plane

These Dafny modules model the control plane that runs controlled agent experiments and prove what it
promises over whole runs: leased and fenced session workers, the owner's cost ledger, metered target
inference, managed model budgets, best-first beam search, the episode gateway and its readers, retryable
finalization, upload quotas and restartable paired evaluation. Each component has a layer of values and
functions, in which the transactions are written once, and for code that changes objects step by step
a class whose methods are proved equal to those functions. The main results are about
every run of a transition system: any interleaving of transactions, any crash, any lost message.

How the modules relate:

- `SessionStore` holds the transactions on a session's rows, `SessionAnswers` what they answer; `SessionProtocol` interleaves them for any number
  of runners, takeovers and maintenance passes; `SessionInvariants`, `CompletedSteps` and `SessionSteps` hold the
  invariants, `SessionClaims` what the worker's claim loop adds to them, `SessionTheorems` the results over runs, and
  `SessionRuns` how commands are served and sessions end;
  `OwnerLedger` adds the ledger over all sessions;
  `ResearchStore` is the class with the same transactions as in-place updates.
- `ManagedUsage`, `ManagedBudget`, `ManagedService`: a managed session's campaign usage, admission and
  the attacker client.
- `InferenceContracts`, `InferenceBroker`, `InferenceMailbox`, `InferenceRelay`, `RelayTheorems`, `InferenceService`: metering.
- `BranchReplay`, `BeamSpec`, `BeamTheorems`, `BeamAttempts`, `BeamSearch`, `BeamWitness`, `Ranking`: the search as
  functions, what holds of them, the attempt numbers, the search as it runs, and a run that repeats a number.
- `JsonTree`, `NumberedLogs`, `Interventions`, `Gateway`, `TraceCursors`, `GatewayService`: effects,
  deliveries and the three log cursors.
- `EpisodeClose`, `EpisodeService`: finalization under failing operations.
- `Uploads`, `UploadService`; `Evaluations`, `EvaluationWitness`, `EvaluationService`; `Bootstrap`; `Base64Url`, `CapabilityTokens`;
  `Limits`; `Prelude` (sums and options).

Floats are `real`; hashes and HMAC are abstract (a hash stands for its content, a keyed hash is any function).
Time enters only as the outcome of a comparison or as an argument. What the environment, the model, the provider,
the runtime and the file store answer are parameters of the events.

The commit of an internal command checks the fence but not whether the session has ended. That check is not missed:
a worker claims only in the first step of a round in which none of its coroutines is at work, and from this discipline
alone (`SessionClaims.ClaimsAlone`) no internal command is ever committed to an ended session.
`SessionTheorems.InternalKeepsTerminalIff` and `StaysTerminalIff` say what rests on it. Step indices, fences, single
action, command order, the ledger, distinct keys and reservations within the quota need no such discipline.

Where the code does less than its design promises, the code is modelled as it is, a concrete run shows the gap,
and the exact condition is proved:

- A close that is claimed as a command is stopped by the guard before it begins and then counts as an uncertain
  running command, so an unused session is charged its maximum (`SessionTheorems.ClaimedCloseChargesMaximum`, `SettlementIs`).
- A stop request that arrives before a generation has begun bills the previous generation's usage again
  (`ManagedBudget.StaleUsageIsBilledAgain`, over runs `BillsOwnUsageIff`). The limits still hold.
- An exception that the broker does not catch leaves a reservation charged without a stored result, and the broker
  dispatches the same id again (`InferenceBroker.EscapedIsDispatchedAgain`, `DispatchedOnceIff`); the relay never does
  (`InferenceRelay.RelayDispatchesOnce`).
- Cancellation that comes and goes lets two attempts share a number and a seed, also in rounds that are not
  adjacent (`BeamWitness.FlickerRun`, `BeamAttempts.DistinctIff`).
- An argument that the canonical encoding rejects raises after the audit entry and before the stored response, so a repeat
  executes again (`Gateway.UnencodableArgumentExecutesTwice`, `RepeatExecutesAgainIff`, over runs `ExactlyOnceIff`).
- A reset whose response is lost leaves the trace cursor ahead of the new log, and a failing inference recorder leaves
  the intervention cursor ahead of receipts nobody was given
  (`TraceCursors.LostResetHidesAnEffect`, `FailingRecorderHidesAReceipt`, `DrainsAreTheLogsIff`).
- A transfer whose last transaction takes effect and raises removes the file of an upload whose row says uploaded
  (`Uploads.UnacknowledgedTransferLosesTheFile`, `TransferSucceedsIff`, `LostFileIsTransferredAgain`).
- An evaluation samples what a session's campaign has cost, and a superseded worker may still charge the campaign after the
  session ended, so two jobs can report different costs for one session
  (`EvaluationWitness.LateUsageSplitsReports`, `Evaluations.PublishersAgree`). All else they report is the same.
- A step that raises an exception without a text leaves no error, and takes an earlier one away, so the episode can be
  settled as a success (`EpisodeClose.UnnamedErrorIsForgotten`, `OutcomeIs`).
- A call to close in which nothing fails stays open when an undeclared verifier ended the episode
  (`EpisodeClose.UndeclaredVerifierStaysOpen`, `FaultFreeCloseIff`).

## Model

| member | source | states |
|---|---|---|
| SessionTheorems.AlwaysRun | backend/src/adversarial_agent_mvp/research_worker.py:53-409 | every run keeps fences, held commands, command order and step counts, whatever the workers do |
| SessionClaims.ClaimsAloneIsOrderly | backend/src/adversarial_agent_mvp/worker.py:122-180 | from the claim loop alone (no worker claims a job while its own coroutine is in charge of the session): no internal command is ever committed to an ended session |
| SessionTheorems.WorkerRunsAreOrderly | backend/src/adversarial_agent_mvp/worker.py:158-182 | every run of the worker loop from a fresh session is orderly and keeps the whole invariant, terminal rows and leases included |
| SessionTheorems.InvRun | backend/src/adversarial_agent_mvp/research_worker.py:53-409 | in every run in which workers claim alone the whole protocol invariant is kept |
| SessionTheorems.SupersededForever | backend/src/adversarial_agent_mvp/research_worker.py:53-56 | a runner whose fence the row no longer carries stays superseded, and none of its later events changes a row or command |
| SessionTheorems.CommandsForwardRun | backend/src/adversarial_agent_mvp/research_worker.py:191-202 | in every run a command is never lost or rewritten and only moves pending, running, final |
| SessionTheorems.ActsOnce | backend/src/adversarial_agent_mvp/research_worker.py:242-248 | in every run, crashes and takeovers included, a command reaches an environment at most once |
| SessionTheorems.TerminalAbsorbs | backend/src/adversarial_agent_mvp/research_worker.py:309-313 | in every run of the worker loop an ended session keeps state, reason, step index, settlement and commands from then on, and has no live command |
| SessionTheorems.StaysTerminalIff | backend/src/adversarial_agent_mvp/research_worker.py:396-409 | a run keeps ended sessions settled and without live commands throughout if and only if no internal command is committed to an ended session |
| SessionTheorems.InternalKeepsTerminalIff | backend/src/adversarial_agent_mvp/research_worker.py:396-406 | the commit of an internal command keeps the terminal row exactly when the row has not ended |
| SessionTheorems.SettlementIs | backend/src/adversarial_agent_mvp/research.py:223-231 | a released session is charged its whole maximum exactly when it ends interrupted or with a running command, else what its campaign used |
| SessionTheorems.ClaimedCloseChargesMaximum | backend/src/adversarial_agent_mvp/research_worker.py:158-166 | concrete run: a close that is claimed, and stopped by the guard before it begins, makes an unused session cost its maximum |
| SessionTheorems.StepsCountUp | backend/src/adversarial_agent_mvp/research_worker.py:242-270 | over every run the completed steps of each episode carry 1..n in creation order |
| SessionTheorems.ActiveRowIsExact | backend/src/adversarial_agent_mvp/research_worker.py:242-293 | in every run an active row with no running reset or step agrees with the environment in charge and with the number of completed steps |
| SessionRuns.StepIsServed | backend/src/adversarial_agent_mvp/research_worker.py:242-293 | a step that fits goes from its claim to the environment once, is finished, and moves the row to what the environment counts |
| SessionRuns.FreshIs | backend/src/adversarial_agent_mvp/research.py:150-170 | a new session is queued, with a pending job and nothing done, charged or asked for |
| SessionRuns.IdleRound | backend/src/adversarial_agent_mvp/research_worker.py:99-111 | a round of a session at work that finds nothing pending changes nothing |
| SessionRuns.OtherStepIsRefused | backend/src/adversarial_agent_mvp/research_worker.py:243-246 | a step that does not fit is refused, reaches nothing and changes no row |
| SessionRuns.ResetIsServed | backend/src/adversarial_agent_mvp/research_worker.py:207-241 | an admitted reset starts a new episode at index zero and is finished |
| SessionRuns.OtherResetIsRefused | backend/src/adversarial_agent_mvp/research_worker.py:212-223 | a reset that is not admitted is refused, ends the episode and drops the environment |
| SessionRuns.OwnCommandRuns | backend/src/adversarial_agent_mvp/research_worker.py:396-409 | a worker's own command is recorded as running and executed next |
| SessionRuns.LeaseLostRetires | backend/src/adversarial_agent_mvp/research_worker.py:53-56 | a runner that finds in a transaction that it lost its lease or fence changes no row and goes on to retire |
| SessionRuns.StopEndsSession | backend/src/adversarial_agent_mvp/research_worker.py:99-104 | a recorded reason, or else the clock, ends the session in the state of that reason, with its commands and settlement |
| SessionRuns.RaisingStepInterrupts | backend/src/adversarial_agent_mvp/research_worker.py:112-119 | a step that raises has reached the environment, its outcome is unknown, and its session is interrupted at the price of its maximum |
| SessionRuns.RaisingStepCounts | backend/src/adversarial_agent_mvp/orchestrator.py:311-325 | an environment counts a step that raises |
| SessionRuns.AbortInterrupts | backend/src/adversarial_agent_mvp/research_worker.py:113-119 | any exception or cancellation of a worker at work interrupts its session |
| SessionRuns.OwnEndCompletes | backend/src/adversarial_agent_mvp/research_worker.py:86-114 | a self-driven session that comes to its own end is completed for that reason |
| SessionRuns.TakeoverInterrupts | backend/src/adversarial_agent_mvp/research_worker.py:58-78 | the first worker makes a session ready, any later one finds it interrupted and ends it |
| SessionRuns.EndedSessionIsLeft | backend/src/adversarial_agent_mvp/research_worker.py:58-66 | a worker that takes up an ended session leaves it |
| SessionRuns.JobIsClaimed | backend/src/adversarial_agent_mvp/storage.py:1837-1920 | a job waiting or with an expired lease is claimed while attempts are left, under the next attempt number |
| SessionRuns.CrashLeavesRows | backend/src/adversarial_agent_mvp/worker.py:122-180 | a worker that dies leaves the rows as they are |
| SessionRuns.FailedJobInterrupts | backend/src/adversarial_agent_mvp/research_worker.py:132-146 | a maintenance pass over a session whose job failed interrupts it |
| SessionRuns.WaitingSessionExpires | backend/src/adversarial_agent_mvp/research_worker.py:132-146 | a maintenance pass over a waiting session with a reason to stop ends it for that reason |
| SessionRuns.HealthySessionIsLeft | backend/src/adversarial_agent_mvp/research_worker.py:132-146 | a maintenance pass changes nothing of a session at work, or one that waits without a reason to stop |
| SessionRuns.UsageAdds | backend/src/adversarial_agent_mvp/storage.py:1030-1095 | usage is added to the campaign whatever state the session is in |
| SessionRuns.LeaseMoves | backend/src/adversarial_agent_mvp/storage.py:1837-1975 | only the worker that holds a lease renews, finishes or gives it up, and a job out of attempts fails |
| SessionSteps.StepsStep | backend/src/adversarial_agent_mvp/research_worker.py:204-293 | each event keeps row index, environment index and completed-step count together |
| SessionInvariants.HoldStep | backend/src/adversarial_agent_mvp/research_worker.py:396-409 | a running command is held by at most one runner, and acted on at most once |
| SessionInvariants.FenceStep | backend/src/adversarial_agent_mvp/research_worker.py:58-71 | fences never repeat among runners of one session |
| OwnerLedger.LedgerRun | backend/src/adversarial_agent_mvp/research.py:112-231 | in every interleaving reserved cost is the sum of maxima of unreleased sessions, spent cost the sum of settlements, and both together pass the limit by no more than settlements passed their maxima |
| OwnerLedger.ReservationCovered | backend/src/adversarial_agent_mvp/research.py:228 | the clamp at zero never applies |
| OwnerLedger.WithinLimit | backend/src/adversarial_agent_mvp/research.py:128-129 | if each session used at most its maximum, spent plus reserved never exceeds the owner limit |
| OwnerLedger.QuotaRun | backend/src/adversarial_agent_mvp/research.py:118-127 | in every run of worker loops live sessions stay within the quota, and a reservation is released exactly when its session is terminal |
| OwnerLedger.ReservedWithinQuota | backend/src/adversarial_agent_mvp/research.py:118-127 | in every run at all request keys are distinct, a terminal session is released, and the sessions that hold a reservation are within the quota |
| ResearchStore.Store.CreateSession | backend/src/adversarial_agent_mvp/research.py:112-170 | the ordered answers as spelled out by CreateMeans: a seen key gets its session or a conflict, each refusal of a new one has its own condition; reserves exactly when it creates |
| ResearchStore.Store.Submit | backend/src/adversarial_agent_mvp/research.py:172-221 | the reply and the new rows as spelled out by SubmitMeans: a seen key gets its command back or a conflict, each refusal has its own condition, and an accepted request appends one command with its stop reason |
| ResearchStore.Store.Retire | backend/src/adversarial_agent_mvp/research_worker.py:295-337 | under its fence and while the session is at work: every command ends by its kind and status, the row by the recorded stop reason, the reservation by its settlement; otherwise nothing changes |
| SessionAnswers.SubmitAnswers | backend/src/adversarial_agent_mvp/research.py:172-221 | for each reply of a submission the condition under which exactly it is given, and what is then left behind |
| SessionAnswers.SubmitIsIdempotent | backend/src/adversarial_agent_mvp/research.py:177-183 | a request accepted once is answered with its command after any run of events, with no row changed; the same key with other content is a conflict after any run |
| SessionAnswers.RetireAnswers | backend/src/adversarial_agent_mvp/research_worker.py:295-337 | a live close or cancel becomes finished, another running command indeterminate, another pending one dropped, a final one stays; a client reason decides the end state and reason, else the retiring party |
| SessionAnswers.FinalStatusesAreGivenAtTheEnd | backend/src/adversarial_agent_mvp/research_worker.py:318-331 | over every run: an indeterminate command was running, and a dropped one still pending, when the retirement ended its session |
| SessionAnswers.DroppedWasNeverTaken | backend/src/adversarial_agent_mvp/research_worker.py:318-331 | over every run: a dropped command was never running and never reached an environment |
| OwnerLedger.CreateAnswers | backend/src/adversarial_agent_mvp/research.py:112-170 | for each reply of a creation the condition under which exactly it is given |
| OwnerLedger.CreateIsIdempotent | backend/src/adversarial_agent_mvp/research.py:112-120 | a creation accepted once is answered with its session after any run of all sessions; the same key with other content is a conflict |
| ResearchStore.Store.Release | backend/src/adversarial_agent_mvp/research.py:223-231 | releases and charges at most once |
| ResearchStore.Store.ClaimCommand | backend/src/adversarial_agent_mvp/research_worker.py:191-202 | claims the oldest pending command under a valid fence, or raises and changes nothing |
| ResearchStore.Store.Complete | backend/src/adversarial_agent_mvp/research_worker.py:279-293 | completes a running command and moves the row only under a valid fence |
| ResearchStore.Store.InternalCommand | backend/src/adversarial_agent_mvp/research_worker.py:396-409 | adds a running command under a valid fence, whatever the row state |
| ResearchStore.Store.BeginRun | backend/src/adversarial_agent_mvp/research_worker.py:58-74 | takes over the row with the attempt number as fence and says whether an earlier attempt was interrupted |
| ManagedUsage.RecordMoves | backend/src/adversarial_agent_mvp/storage.py:1104-1132 | recording a drained batch moves the campaign totals and the named episode by the same amount and no other episode |
| ManagedUsage.RepeatedDrainIsFree | backend/src/adversarial_agent_mvp/storage.py:1050-1060 | a batch recorded and drained again charges nothing |
| ManagedUsage.UsageWithinReserved | backend/src/adversarial_agent_mvp/runtime_registry.py:58-104 | however a generation ends, its recorded usage is at most the reservation |
| ManagedUsage.AddUsageAnswers | backend/src/adversarial_agent_mvp/storage.py:1040-1062 | a new invocation is charged, the same one again is not, another one under its key is an error |
| ManagedUsage.UsageAnswers | backend/src/adversarial_agent_mvp/runtime_registry.py:58-104 | no usage exactly when the request is too large; counts within the limits are priced at the rates, anything else is charged as the largest input and output |
| ManagedBudget.ResetAnswers | backend/src/adversarial_agent_mvp/research_worker.py:216-232 | a reset opens the next episode exactly when the profile fits on top of what is recorded |
| ManagedBudget.AdmitAnswers | backend/src/adversarial_agent_mvp/research_worker.py:459-472 | a generation is admitted exactly when its whole reservation fits on top of a whole profile |
| ManagedBudget.FinishAnswers | backend/src/adversarial_agent_mvp/research_worker.py:473-495 | what a finished generation leaves as usage and what is appended to the ledger, by the fence |
| ManagedBudget.ClosedRecordsNothing | backend/src/adversarial_agent_mvp/research_worker.py:204-232 | after a close drains record nothing until the next reset |
| ManagedBudget.SpentWithinLimits | backend/src/adversarial_agent_mvp/research_worker.py:216-222 | over every run the totals are the sums of recorded invocations and pass the limits by at most what the newest episode was charged beyond its profile |
| ManagedBudget.MeteredSessionsStayWithinLimits | backend/src/adversarial_agent_mvp/research_worker.py:459-495 | if the newest episode was charged within its profile, recorded tokens and cost are within the session limits |
| ManagedBudget.BillsItsOwnUsageIff | backend/src/adversarial_agent_mvp/research_worker.py:473-495 | a generation is billed for its own usage or nothing exactly unless a stop request beats it to the model while an earlier usage is still held |
| ManagedBudget.BillsOwnUsageIff | backend/src/adversarial_agent_mvp/research_worker.py:459-495 | over every run the billed attacker invocations are exactly what its generations used, in order, if and only if no stop request beat a generation to the model while an earlier usage was held |
| ManagedBudget.StaleUsageIsBilledAgain | backend/src/adversarial_agent_mvp/research_worker.py:158-165 | whatever usage a generation reported, a second one refused before it begins is billed for it again: one request, two invocations |
| ManagedService.CampaignRow.RecordTargetInference | backend/src/adversarial_agent_mvp/storage.py:1104-1132 | the loop records in order and stops at the first conflict |
| ManagedService.RegisteredAttacker.Propose | backend/src/adversarial_agent_mvp/runtime_registry.py:64-104 | the reservation is the recorded usage unless a report in range replaces it; none when the request is too large |
| ManagedService.ResearchRedBridge.ProposeActions | backend/src/adversarial_agent_mvp/research_worker.py:459-495 | refuses exactly when the reservation and the profile do not fit; otherwise accounts for the generation whether or not it failed |
| InferenceBroker.FinishKeeps | backend/src/adversarial_agent_mvp/inference.py:202-248 | reconciliation on every outcome that is caught keeps counters equal to stored results plus the reservations that stand, and its clamp never applies |
| InferenceBroker.EscapeKeeps | backend/src/adversarial_agent_mvp/inference.py:202-237 | an exception that is not caught leaves its reservation charged and nothing stored |
| InferenceBroker.ServedWithinProfile | backend/src/adversarial_agent_mvp/inference.py:160-248 | after any sequence of calls counters are the sums over stored results and leaked reservations; each id was dispatched at most once exactly when no call was admitted after one with its id escaped, and always without uncaught exceptions; totals stay within the profile when usage stays within its reservation |
| InferenceBroker.DispatchedOnceIff | backend/src/adversarial_agent_mvp/inference.py:160-206 | from any consistent broker, further calls dispatch no id twice if and only if none of them is admitted (open, nothing stored for its id, within every limit) after an earlier call with its id ended in an exception nobody catches |
| InferenceBroker.EscapedIsDispatchedAgain | backend/src/adversarial_agent_mvp/inference.py:202-237 | concrete run: a request whose call escaped is made again, dispatched again and charged twice |
| InferenceBroker.CompleteMeans | backend/src/adversarial_agent_mvp/inference.py:160-315 | one call by its inputs alone: a repeat gets the stored result, the first limit broken is the rejection, an admitted call stores what the provider reported at its price or the reservation under the status of how it ended, and the counters move by exactly that |
| InferenceContracts.PriceAtMonotone | backend/src/adversarial_agent_mvp/inference.py:116-158 | the price of fewer tokens is never higher |
| InferenceContracts.ScaleIsProduct | backend/src/adversarial_agent_mvp/inference.py:184-187 | the price of tokens at a rate is their product |
| InferenceMailbox.CompleteKeeps | backend/src/adversarial_agent_mvp/inference_mailbox.py:127-145 | settling keeps one record per request, numbered 1..n, equal to what the request holds |
| InferenceMailbox.ClaimKeeps | backend/src/adversarial_agent_mvp/inference_mailbox.py:118-125 | a claim hands out a request that was never claimed |
| InferenceMailbox.SubmitAnswers | backend/src/adversarial_agent_mvp/inference_mailbox.py:33-70 | for each reply of a submission the condition under which exactly it is given |
| InferenceMailbox.CompleteAnswers | backend/src/adversarial_agent_mvp/inference_mailbox.py:127-145 | a result settles the waiting request of its id and content and is recorded; the same result again is a repeat, anything else a mismatch or conflict |
| InferenceMailbox.FailPendingAnswers | backend/src/adversarial_agent_mvp/inference_mailbox.py:72-116 | every waiting request is failed with its whole reservation when claimed and nothing when not; nothing else changes |
| InferenceMailbox.ClaimAnswers | backend/src/adversarial_agent_mvp/inference_mailbox.py:118-125 | a claim hands out the oldest unclaimed waiting request, and nothing exactly when there is none or the mailbox is closed |
| InferenceRelay.SubmitIsIdempotent | backend/src/adversarial_agent_mvp/inference_mailbox.py:44-60 | a request queued once is known after any run until the mailbox closes, and another one under its id is refused |
| InferenceRelay.InvRun | backend/src/adversarial_agent_mvp/capsule.py:555-609 | the composed invariant of mailbox, relay and broker holds over every run with lost, repeated, failed and refused messages |
| InferenceRelay.AuditCoversCharges | backend/src/adversarial_agent_mvp/capsule.py:569-609 | the audit of every settled request bills at least what the broker charged, when usage stays within its reservation |
| InferenceRelay.AuditTrail | backend/src/adversarial_agent_mvp/inference_mailbox.py:33-151 | each request is claimed at most once and has one record; a settlement is the broker's stored result, or a mailbox failure that bills the whole reservation when claimed, whatever the broker stored, and nothing when never claimed |
| InferenceRelay.RelayDispatchesOnce | backend/src/adversarial_agent_mvp/capsule.py:569-609 | through the relay no request is dispatched twice, even when a call ended in an uncaught exception |
| RelayTheorems.RequestIsServed | backend/src/adversarial_agent_mvp/capsule.py:569-609 | while no message is lost the oldest waiting request is claimed, called and settled with exactly what its call reports, and the relay polls again |
| RelayTheorems.PostedUntilAccepted | backend/src/adversarial_agent_mvp/capsule.py:594-607 | a result is posted until an acceptance arrives, three times at most; however many posts took effect it settles the request once, and without an acceptance the relay is broken |
| RelayTheorems.LostPollsInARow | backend/src/adversarial_agent_mvp/capsule.py:571-583 | the hundredth lost poll in a row breaks the relay, not an earlier one |
| RelayTheorems.LostPollTakesUpNothing | backend/src/adversarial_agent_mvp/capsule.py:571-583 | a poll whose answer is lost leaves its claim standing exactly when it took effect, and takes up nothing |
| RelayTheorems.ErrorPollBreaks | backend/src/adversarial_agent_mvp/capsule.py:584-587 | a claim answered by an error status breaks the relay |
| RelayTheorems.AnsweredPollResets | backend/src/adversarial_agent_mvp/capsule.py:582-585 | an answered poll starts the count of lost ones again |
| RelayTheorems.KnownWorkIsNotCalled | backend/src/adversarial_agent_mvp/inference.py:160-175 | work the broker has an answer for is posted without a call; a closed broker and other content break the relay |
| RelayTheorems.NewWorkIsRejected | backend/src/adversarial_agent_mvp/inference.py:188-198 | new work outside a limit is answered with the rejection, which is posted |
| RelayTheorems.IdleForever | backend/src/adversarial_agent_mvp/capsule.py:555-567 | a broken or stopped relay claims, calls and stores nothing more in any run, and a broken one stays so exactly until it reports or is cancelled |
| RelayTheorems.ReportFailsPending | backend/src/adversarial_agent_mvp/capsule.py:555-567 | a broken relay reports once; a report that takes effect fails whatever waits |
| RelayTheorems.CancelStops | backend/src/adversarial_agent_mvp/capsule.py:555-559 | a cancelled relay stops at once, with a call under way when that call ends |
| RelayTheorems.RemovedForever | backend/src/adversarial_agent_mvp/inference.py:160-163 | in every run after its episode is removed the broker dispatches nothing |
| RelayTheorems.TimedOutRequestFails | backend/src/adversarial_agent_mvp/inference_mailbox.py:63-70 | a caller that gives up waiting fails its request when nobody has claimed it |
| RelayTheorems.ClosedForever | backend/src/adversarial_agent_mvp/inference_mailbox.py:147-151 | a closed mailbox has given up whatever waited, and in no run changes a request or record any more |
| InferenceService.MailboxObject.Submit | backend/src/adversarial_agent_mvp/inference_mailbox.py:33-70 | the reply and the new queue as spelled out by SubmitMeans: checks in order, a seen id known or refused by its content, the request budget and four waiting requests |
| InferenceService.MailboxObject.FailPending | backend/src/adversarial_agent_mvp/inference_mailbox.py:113-116 | closes the mailbox and fails every waiting request, billed by whether it was claimed |
| InferenceService.BrokerEpisode.Complete | backend/src/adversarial_agent_mvp/inference.py:160-248 | one call as spelled out by CallMeans: repeat, rejection by the first limit broken, or dispatch; provider counts and their price, or the reservation under its own status, are returned, stored and charged; raises exactly when closed, on a reused id, or when a dispatched call is cancelled or its exception is not caught |
| BeamSearch.Run | backend/src/adversarial_agent_mvp/red.py:469-704 | computes the specified search; explored attempts within the budget, frontier within the beam and its peak exact; every expansion takes the best of what the one before it kept, and entries that came to nothing were at the step limit or had no candidates; the children are what the environments answered; the winner is the first best success of the first round with one, and its environment answered with success, else the first best node, else the root; raises exactly on a failed attempt; attempt numbers are distinct if and only if no started candidate falls on an earlier number |
| BeamTheorems.ExploreIs | backend/src/adversarial_agent_mvp/red.py:501-704 | from any point of the loop the search ends with its accounts, the right result and a reason to stop |
| BeamTheorems.ExpandIs | backend/src/adversarial_agent_mvp/red.py:505-692 | an expansion pops the best entry, opens exactly the open children, and keeps nothing worse than what it drops |
| BeamTheorems.ExploreHistory | backend/src/adversarial_agent_mvp/red.py:501-704 | over the whole search every expansion is best first, follows what the one before it kept, and ties fall to the older entry |
| BeamTheorems.ExploreAnswers | backend/src/adversarial_agent_mvp/red.py:572-660 | over the whole search every round led to exactly the children and failures its started candidates' environments answered |
| BeamTheorems.RoundSucceedsIff | backend/src/adversarial_agent_mvp/red.py:664-684 | a round has a success exactly when the environment of one of its started candidates answered with success |
| BeamTheorems.PriorityDiffers | backend/src/adversarial_agent_mvp/red.py:454-467 | two branches differ in priority by their rewards, novelty, cost, depth and rank at the configured weights, reward and novelty only where they count |
| BeamTheorems.NothingIsRatedZero | backend/src/adversarial_agent_mvp/red.py:454-467 | a branch without reward, novelty, cost, depth and rank has priority zero |
| BeamSearch.Prune | backend/src/adversarial_agent_mvp/red.py:685-692 | keeps the best beam_width entries, nothing dropped is better than anything kept |
| BeamSearch.PickBest | backend/src/adversarial_agent_mvp/red.py:673-674 | picks a branch of maximal priority |
| BeamAttempts.DistinctIff | backend/src/adversarial_agent_mvp/red.py:569-608 | over any number of rounds all attempt numbers are distinct if and only if no started candidate of a round falls on the number of one started in an earlier round |
| BeamAttempts.HeldBackLastIsEnough | backend/src/adversarial_agent_mvp/red.py:583-608 | when held-back candidates come last in every round the attempts are numbered 1, 2, and so on |
| BeamAttempts.PersistentIsEnough | backend/src/adversarial_agent_mvp/red.py:502-504 | when cancellation persists once seen the attempt numbers increase |
| BeamWitness.FlickerRun | backend/src/adversarial_agent_mvp/red.py:583-597 | a run of the search whose three attempts are numbered 3, 2 and 3 |
| BeamSearch.SharesAddUp | backend/src/adversarial_agent_mvp/red.py:567-568 | token shares of a round add up to exactly the tokens spent |
| BeamSearch.CostSharesAddUp | backend/src/adversarial_agent_mvp/red.py:547-567 | cost shares of a round add up to what the model cost |
| BranchReplay.ExecuteCandidate | backend/src/adversarial_agent_mvp/red.py:762-897 | the replay loop comes to what the environment answered, as spelled out by Answers |
| BranchReplay.ExecuteAnswers | backend/src/adversarial_agent_mvp/red.py:762-937 | in terms of the environment's answers alone: fails exactly when the start or the first decisive step raises; a child with the candidate exactly when the candidate was answered, with that answer's success, end, reward and observation; the parent's own actions exactly when the replay succeeds first; cost and rank as charged |
| BranchReplay.ExecuteCounts | backend/src/adversarial_agent_mvp/red.py:815-897 | the reward of every child is the sum of its rewards, with one reward per action and one observation more, from stored and source-seeded parents alike |
| BranchReplay.ReplayIsNotRecounted | backend/src/adversarial_agent_mvp/red.py:822-834 | expanding a stored branch keeps its history as a prefix and adds exactly one reward |
| Ranking.NormalizeRanked | backend/src/adversarial_agent_mvp/red.py:1156-1188 | whatever the model returns, the result ranks exactly the candidates, each once, in descending score: the score of its first mention, or that of its place among the candidates; equal scores stay in the order of mention |
| Ranking.Deduplicate | backend/src/adversarial_agent_mvp/red.py:1190-1204 | keeps the first action of every fingerprint, in the order of the actions |
| Interventions.OverlayTouchesOnlyItsPath | backend/src/adversarial_agent_mvp/interventions.py:196-232 | the response differs from the world result only on the declared occurrence of the declared call, and then only at the declared path, where it holds the content: objects above it keep their keys, everything beside it reads as before, and a receipt is recorded; every occurrence is counted once |
| Interventions.FinishKeeps | backend/src/adversarial_agent_mvp/interventions.py:234-272 | finishing gives the attempt its one receipt, frees the active slot of it, and keeps receipts numbered 1..n with n at most 1000 |
| Interventions.FinishConcludes | backend/src/adversarial_agent_mvp/interventions.py:234-272 | an attempt without a receipt gets exactly one: rejected on that failure, unavailable for an unmatched tool result, applied exactly when the target acknowledged its own plan, unknown otherwise; an attempt with a receipt keeps it |
| Interventions.PrepareAnswers | backend/src/adversarial_agent_mvp/interventions.py:115-194 | each way of turning a document down by its own condition, and otherwise the plan of the first slot that offers what it names |
| Interventions.ComparisonIs | backend/src/adversarial_agent_mvp/interventions.py:211-216 | the arguments match exactly when every declared one is there and equal, and raise exactly when the first that is not the same cannot be encoded |
| Interventions.PrepareKeeps | backend/src/adversarial_agent_mvp/interventions.py:115-194 | a new attempt is active with a plan, or has its receipt at once |
| Interventions.OverlayKeeps | backend/src/adversarial_agent_mvp/interventions.py:196-232 | a tool result is applied only on its declared occurrence |
| Interventions.RaisesOnlyOnUnencodable | backend/src/adversarial_agent_mvp/interventions.py:211-216 | comparing arguments raises only on a value the canonical encoding rejects |
| JsonTree.PutBack | backend/src/adversarial_agent_mvp/interventions.py:220-230 | writing the old leaf back restores the document |
| JsonTree.PutElsewhere | backend/src/adversarial_agent_mvp/interventions.py:220-230 | paths neither through nor below the written one read as before |
| Gateway.RunKeeps | backend/src/adversarial_agent_mvp/blue_gateway.py:150-196 | audit sequences are 1..n, and the world is what the audited effects alone lead to, each with the outcome the engine gave it |
| Gateway.StoredForever | backend/src/adversarial_agent_mvp/blue_gateway.py:170-174 | until the next reset a repeat gets the stored response, anything else under its id is refused, and nothing is moved |
| Gateway.NewEffectIsExecuted | backend/src/adversarial_agent_mvp/blue_gateway.py:175-196 | an effect under a new id is executed, audited and overlaid, and its answer stored unless the overlay raises |
| Gateway.ReceiptsAreGrounded | backend/src/adversarial_agent_mvp/interventions.py:196-272 | over every run between resets: an acknowledgement receipt rests on an end of that delivery that carried its own plan, a tool receipt on its declared occurrence, a rejection on a reported one |
| Gateway.EndGivesReceipt | backend/src/adversarial_agent_mvp/interventions.py:234-272 | an end of a delivery without a receipt gives it one and changes nothing but the deliveries |
| Gateway.DrainStopsEffects | backend/src/adversarial_agent_mvp/blue_gateway.py:135-148 | after a drain nothing is executed until the next reset |
| Gateway.ExactlyOnceIff | backend/src/adversarial_agent_mvp/blue_gateway.py:168-196 | over every run between resets each audited correlation id was executed once and has its response stored, if and only if no permitted submission executed and had its overlay raise |
| Gateway.UnaccountedForever | backend/src/adversarial_agent_mvp/blue_gateway.py:181-196 | an execution that the stored responses do not account for stays unaccounted for |
| Gateway.ExactlyOnceRun | backend/src/adversarial_agent_mvp/blue_gateway.py:168-196 | each correlation id is executed once when every submitted effect can be compared |
| Gateway.RepeatExecutesAgainIff | backend/src/adversarial_agent_mvp/blue_gateway.py:181-196 | submitting an effect twice executes it twice exactly when the first submission ran and its overlay raised, which is exactly when the comparison met a value that cannot be encoded |
| Gateway.UnencodableArgumentExecutesTwice | backend/src/adversarial_agent_mvp/interventions.py:211-216 | concrete run: one correlation id, two executions |
| Gateway.ResetKeeps | backend/src/adversarial_agent_mvp/blue_gateway.py:119-133 | a reset starts an empty log, frees the active delivery and keeps all receipts |
| NumberedLogs.NewerIsSuffix | backend/src/adversarial_agent_mvp/blue_gateway.py:402-420 | what is sent after a cursor is exactly what lies beyond it |
| TraceCursors.DrainsAreTheLogsIff | backend/src/adversarial_agent_mvp/target_adapter.py:298-325 | after any run, drains have handed on every inference record once and in order; every receipt exactly when the recorder never failed while a record and a receipt were both unread; the whole audit log exactly when the last reset was answered or found the cursor at zero, or the log is empty |
| TraceCursors.AnsweredResetsKeepTheTrace | backend/src/adversarial_agent_mvp/target_adapter.py:240-251 | if every reset is answered the cursor is zero after each |
| TraceCursors.RefusedResetDrains | backend/src/adversarial_agent_mvp/target_adapter.py:240-251 | a reset that the target refuses leaves an episode that executes nothing |
| TraceCursors.WorkingRecorderSkipsNothing | backend/src/adversarial_agent_mvp/target_adapter.py:311-318 | no receipt is skipped while the inference recorder does not fail |
| TraceCursors.FailingRecorderHidesAReceipt | backend/src/adversarial_agent_mvp/target_adapter.py:307-325 | concrete run: a drain whose inference recorder fails moves past a receipt, and the next drain hands on the inference record and no receipt |
| TraceCursors.LostResetHidesAnEffect | backend/src/adversarial_agent_mvp/target_adapter.py:244-250 | concrete run: a reset whose response is lost hides the first effect after it |
| GatewayService.GatewayEpisode.ProcessEffect | backend/src/adversarial_agent_mvp/blue_gateway.py:150-196 | one effect under the lock equals the specified step |
| GatewayService.GatewayEpisode.Reset | backend/src/adversarial_agent_mvp/blue_gateway.py:119-133 | one reset equals the specified step |
| GatewayService.InterventionDelivery.OverlayResponse | backend/src/adversarial_agent_mvp/interventions.py:196-232 | counts matches, replaces the leaf and records the receipt as specified |
| GatewayService.InterventionDelivery.FinishDelivery | backend/src/adversarial_agent_mvp/interventions.py:234-272 | concludes an attempt without a receipt by failure, channel and acknowledgement as spelled out by Concludes, and frees the active slot of it |
| GatewayService.TargetAdapter.DrainPrivateTrace | backend/src/adversarial_agent_mvp/target_adapter.py:298-325 | moves the three cursors exactly as the specified drain and hands on exactly what it received |
| EpisodeClose.ClosingNeverRepeats | backend/src/adversarial_agent_mvp/orchestrator.py:357-433 | under any failures before or after effect: destroy returns at most once, one finding per verifier, at most one evidence row; closed means destroyed and finalized |
| EpisodeClose.FaultFreeCloseIff | backend/src/adversarial_agent_mvp/orchestrator.py:357-433 | after any history a call without failures ends closed with the episode destroyed exactly when the findings of a successful episode can be named |
| EpisodeClose.CloseAnswers | backend/src/adversarial_agent_mvp/orchestrator.py:357-433 | whatever fails: each stage is done after the call exactly when it was done before or the operations it needs succeed now; the call raises exactly when a stage still to do failed |
| EpisodeClose.FinalizeAnswers | backend/src/adversarial_agent_mvp/orchestrator.py:366-472 | a finalization succeeds exactly when none of the operations it needs fails and the findings can be named |
| EpisodeClose.EvidenceAnswers | backend/src/adversarial_agent_mvp/orchestrator.py:392-412 | the evidence row is written once, unless its building fails before it took effect, and the findings are linked when nothing fails |
| EpisodeClose.SettlesOutcome | backend/src/adversarial_agent_mvp/orchestrator.py:376-382 | an open episode is settled as failed, succeeded or exhausted by what its steps came to; an ended one stays as it is |
| EpisodeClose.OutcomeIs | backend/src/adversarial_agent_mvp/orchestrator.py:304-366 | over every run the episode counts as failed exactly when the last step that raised before the first close left a text, or that close could not close the delegate, and as successful exactly when a step succeeded before it |
| EpisodeClose.UnnamedErrorIsForgotten | backend/src/adversarial_agent_mvp/orchestrator.py:311-325 | concrete run: an error with a text, one without and a success are settled as a success |
| EpisodeClose.OutcomeRun | backend/src/adversarial_agent_mvp/orchestrator.py:366-392 | over every run the row claims success only of an ended episode with a successful step, and its status agrees |
| EpisodeClose.WantedIs | backend/src/adversarial_agent_mvp/orchestrator.py:435-459 | the findings a successful episode must have: one per verifier with a terminal signal, of its greatest severity, or the only specification's default; none can be named otherwise |
| EpisodeClose.SeverityIs | backend/src/adversarial_agent_mvp/orchestrator.py:435-459 | a verifier's severity is the greatest of its terminal signals, at least zero |
| EpisodeClose.GivenUpStaysFailed | backend/src/adversarial_agent_mvp/orchestrator.py:366-382 | an episode another worker gave up stays failed and without success in every run, until it is destroyed |
| EpisodeClose.UndeclaredVerifierStaysOpen | backend/src/adversarial_agent_mvp/orchestrator.py:435-472 | concrete run: a successful episode ended by an undeclared verifier is destroyed by a close in which nothing fails, raises, and stays open at the next one too |
| EpisodeClose.CompleteMeans | backend/src/adversarial_agent_mvp/orchestrator.py:435-472 | complete findings include every declared verifier with a terminal signal |
| EpisodeClose.AddMissingKeeps | backend/src/adversarial_agent_mvp/orchestrator.py:460-472 | no verifier gains a second finding, and none is missing after a loop without failure |
| EpisodeService.ManagedEpisodeEnvironment.CloseEpisode | backend/src/adversarial_agent_mvp/orchestrator.py:357-433 | each stage is attempted whatever failed before it and never repeated after success |
| EpisodeService.ManagedEpisodeEnvironment.RecordTerminalFindings | backend/src/adversarial_agent_mvp/orchestrator.py:435-472 | adds exactly the missing findings, or fails when they cannot be named |
| Uploads.StorageRun | backend/src/adversarial_agent_mvp/research_transfers.py:47-169 | through every interleaving, with transactions that raise after they took effect, reserved bytes are the sizes of uploads not given back plus stored results, within the quota; each size goes back at most once; a completed artifact is the declared content |
| Uploads.SettledForever | backend/src/adversarial_agent_mvp/research_transfers.py:157-169 | completed, cancelled and expired uploads never change again |
| Uploads.FinalizationSucceedsIff | backend/src/adversarial_agent_mvp/research_transfers.py:118-155 | a finalization reads exactly when the file is there, what it reads is the declared content, and it then completes exactly when the upload was not given back meanwhile |
| Uploads.UnacknowledgedTransferLosesTheFile | backend/src/adversarial_agent_mvp/research_transfers.py:77-116 | concrete run from the empty owner: the declared content is transferred, the last transaction takes effect and raises, and the uploaded row has no file |
| Uploads.LostFileIsTransferredAgain | backend/src/adversarial_agent_mvp/research_transfers.py:108-116 | an upload whose file was removed after an ambiguous commit fails its finalization and can be transferred again |
| Uploads.TransferSucceedsIff | backend/src/adversarial_agent_mvp/research_transfers.py:77-116 | a transfer ends ready exactly when it received the declared content and was not given up, and its file is there exactly when that was acknowledged |
| Uploads.RefundKeeps | backend/src/adversarial_agent_mvp/research_worker.py:145-156 | cancelling or expiring gives the size back once and keeps the ledger exact |
| Uploads.StoreResultKeeps | backend/src/adversarial_agent_mvp/research_transfers.py:305-318 | a stored dataset is charged once, within the quota |
| Uploads.InitiateAnswers | backend/src/adversarial_agent_mvp/research_transfers.py:47-70 | for each reply of an initiation the condition under which exactly it is given |
| Uploads.InitiateIsIdempotent | backend/src/adversarial_agent_mvp/research_transfers.py:47-56 | a request that created an upload is answered with it after any run; another declaration under its key is a conflict |
| Uploads.ChunkAnswers | backend/src/adversarial_agent_mvp/research_transfers.py:92-99 | a chunk is taken exactly when all received stays within the declared size, else the transfer fails |
| Uploads.AbortedFinalization | backend/src/adversarial_agent_mvp/research_transfers.py:149-155 | a finalization that fails leaves the upload ready exactly when its file is there |
| Uploads.StoreResultAnswers | backend/src/adversarial_agent_mvp/research_transfers.py:305-318 | a result is stored exactly when its record has none and it fits the quota |
| UploadService.UploadStore.ReceiveStream | backend/src/adversarial_agent_mvp/research_transfers.py:90-116 | streaming chunk by chunk equals the specified chunk events followed by the verdict |
| UploadService.UploadStore.CancelUpload | backend/src/adversarial_agent_mvp/research_transfers.py:157-169 | refuses exactly a completed upload, and gives the size back at most once |
| UploadService.UploadStore.InitiateUpload | backend/src/adversarial_agent_mvp/research_transfers.py:47-70 | the reply and the new rows as spelled out by InitiateMeans: a seen key known or in conflict, quota, run; reserves exactly when it creates |
| Evaluations.EvaluationRun | backend/src/adversarial_agent_mvp/research_evaluations.py:136-207 | however jobs are rerun or interleaved, sessions of a pair exist only after all earlier pairs are terminal; a result never changes and holds one comparable baseline and candidate per pair, with the outcome of its session and at most what its campaign has cost by now |
| Evaluations.ReportComparable | backend/src/adversarial_agent_mvp/evaluation.py:483-510 | such samples always meet the matching requirements of the paired comparison |
| Evaluations.ComparableMeans | backend/src/adversarial_agent_mvp/evaluation.py:483-510 | a report is publishable exactly when both sides measured the same pairs of the same cases, each once, and some |
| Evaluations.PublishersAgree | backend/src/adversarial_agent_mvp/research_evaluations.py:162-207 | jobs that reach publication agree on pair, case and outcome of every sample, and on its cost if and only if nothing was charged to that session between their readings; each report is publishable, so the first is kept |
| EvaluationWitness.LateUsageSplitsReports | backend/src/adversarial_agent_mvp/research_evaluations.py:162-207 | concrete run: an ended session is charged between the readings of two jobs, and whichever publishes first decides the reported cost |
| Evaluations.PairsValid | backend/src/adversarial_agent_mvp/research_contracts.py:176-184 | the plan of a suite names each case with each seed, once |
| Evaluations.AloneIsARun | backend/src/adversarial_agent_mvp/research_evaluations.py:136-207 | one uninterrupted job is a run in which only that job takes steps, until it ends |
| Evaluations.FailedJobStays | backend/src/adversarial_agent_mvp/research_evaluations.py:136-207 | a step that fails changes no row and ends its job for good |
| EvaluationService.EvaluationRunner.RunJob | backend/src/adversarial_agent_mvp/research_evaluations.py:136-207 | the nested loops do exactly what one uninterrupted job does |
| Bootstrap.QuantileMonotone | backend/src/adversarial_agent_mvp/evaluation.py:376-383 | on a sorted list the quantile is monotone in the probability and lies between first and last element |
| Bootstrap.QuantileIs | backend/src/adversarial_agent_mvp/evaluation.py:376-383 | the quantile is linear between neighbours at the probability's share of the way from first to last |
| Bootstrap.QuantileMedian | backend/src/adversarial_agent_mvp/evaluation.py:376-383 | half way in an odd number of values is the middle one |
| Bootstrap.QuantileEnds | backend/src/adversarial_agent_mvp/evaluation.py:376-383 | the quantile at zero and at one is the first and the last value |
| Bootstrap.ResampleDraws | backend/src/adversarial_agent_mvp/evaluation.py:401-404 | every resample draws as many values as there are, each from the data |
| Bootstrap.StatisticsAre | backend/src/adversarial_agent_mvp/evaluation.py:401-404 | the k-th estimate is the statistic of the k-th resample |
| Bootstrap.MeanBalances | backend/src/adversarial_agent_mvp/evaluation.py:386-389 | the deviations from the mean balance |
| Bootstrap.ResampleReaches | backend/src/adversarial_agent_mvp/evaluation.py:395-404 | every list of as many values drawn from the data is some resample |
| Bootstrap.ConfidenceInterval | backend/src/adversarial_agent_mvp/evaluation.py:386-416 | errors in order; otherwise quantiles of a sorted list with exactly the statistics of the resamples, with lower at most upper |
| Bootstrap.MeanIntervalWithin | backend/src/adversarial_agent_mvp/evaluation.py:386-416 | with the mean both ends lie between smallest and largest input |
| Base64Url.DecodeEncode | backend/src/adversarial_agent_mvp/security.py:51-61 | decoding an encoding gives the bytes back |
| Base64Url.DecodeAcceptsIff | backend/src/adversarial_agent_mvp/security.py:55-61 | a text is accepted exactly in canonical form, and is then the encoding of its result |
| CapabilityTokens.Base64Lawful | backend/src/adversarial_agent_mvp/security.py:51-61 | encodings hold no dot, decode back, and are the only texts that decode |
| CapabilityTokens.GrantedIff | backend/src/adversarial_agent_mvp/security.py:31-49 | a token is granted exactly when it is, letter for letter, the signed form of a payload that covers the request |
| CapabilityTokens.VerifyAnswers | backend/src/adversarial_agent_mvp/security.py:31-49 | each refusal by its own condition: not two encoded parts or no payload, a wrong signature, expired, another episode, another destination, in that order |
| CapabilityTokens.IssuedVerifiesIff | backend/src/adversarial_agent_mvp/security.py:21-49 | an issued token is granted for its episode and each listed destination until it expires, and for nothing else |
| Limits.ValidateNesting | backend/src/adversarial_agent_mvp/research_requests.py:21-31 | accepts exactly documents with at most 128 nested containers |
| Limits.ValidateExpression | backend/src/adversarial_agent_mvp/contracts.py:472-488 | accepts exactly policy expressions of depth at most 32 and size at most 512 |
| Limits.PolicyWalk.Walk | backend/src/adversarial_agent_mvp/contracts.py:474-485 | the early-exit walk agrees with depth and size and never visits more than 513 nodes |

## Left out

- There is one owner: the service always works for the single administrator, so owners are not indexed.
- Row identifiers are positions and creation order is append order; ties of creation time are not modelled.
- Records other than sessions and commands (bundles, runs, checkpoints, policies) enter `CreateSession` and `Submit` as the outcome of their lookups.
- Capsule handles, campaign and episode status rows written after a retirement, heartbeats and time-outs as clock values.
- The budget tracker of the orchestrator, the step outcome documents and the reproduction comparison.
- TerminalAbsorbs: rests on live worker processes having different identities, which are made from the host name and an object address.
- Evaluations takes the state and the step results of an ended session as final, which `SessionTheorems.TerminalAbsorbs` gives for its state and commands; its cost is not taken as final. The listing of executed cases beside the samples, with its token counts, is not modelled.
- Evaluations leaves out failures inside the report's statistics and the storage quota of the report, which is in `Uploads.StoreResultTx`.
- AuditCoversCharges: needs reported usage within its reservation; a larger report raises the broker's charge without raising a failure already recorded by the mailbox.
- MeteredSessionsStayWithinLimits: conditional on the newest episode's target charges, because the mailbox may bill a whole reservation for a call the broker rejected.
- The relay's start-up, container commands, orphan cleanup and HTTP transport are messages that arrive, are lost or are repeated.
- The work and profile integrity checks of a completion are one comparison of request hashes.
- `asyncio.gather` is modelled in index order; candidates of one round do not share state.
- BeamSpec: candidate proposals, mutations, strategy memory and the novelty score are an oracle per round; `Weighted` and `CostShare` give the source's priority and cost share, of which the search uses only that they are functions.
- Interventions: delivery attempts are values in a list rather than shared objects, so the aliasing between the caller's attempt and the active slot is not modelled; documents are values, so the deep copy before an overlay is not visible as a copy.
- Interventions: the schema and size checks of a document are one outcome; receipt hashes and reasons are omitted.
- Gateway: route checks are one outcome; the verifier's signals and rewards, and an engine or verifier that raises, are omitted.
- EpisodeClose: the evidence bundle's content is omitted, and verifier rows that cannot be read are left out of the signals.
- EpisodeClose: the specifications of a task are taken sorted by verifier, as the findings loop sorts them.
- Uploads: on every route (transfer, completion, cancellation, expiry) opening or removing the partial file is in the same step as the row's transaction; the source does it just before the commit or just after it, so a cancellation or expiry that removes the file and then fails to commit is not modelled. Dataset contents are omitted.
- Limits: the finiteness of numbers and the interpreter's own recursion limit.
- CapabilityTokens: the JSON text of a payload is an abstract pair of functions assumed to read back what was written.
- Bootstrap: values are finite, so the finiteness check is omitted; random choices are an arbitrary function.
- Policy comparators, supervisor semaphores, settings validation, telemetry, storage of strategies and the user interface: true but easy, or foreign calls.
- The scheduling of jobs over time: nothing is said about when a pending command or pair is eventually served.
