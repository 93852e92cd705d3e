# ServerPilot: verified model of the keepalive handoff and its neighbours

ServerPilot is a control plane for shared GPU servers. It keeps idle cards
occupied with one small keeper worker per card, hands exactly the right cards to
an agent that claims them, observes the servers over SSH, and reminds people of
conditions worth knowing. This project models the parts of it that are easy to
get wrong, and proves what they promise. `dafny verify dfyconfig.toml` checks
all of it.

## The keepalive handoff

Eight layers, each using only what those above it prove.

* **Locks** (`Locks.dfy`): the per-endpoint locks as fair, non-re-entrant queues,
  and any number of tasks that take a set of them in sort order. Mutual
  exclusion, absence of deadlock, and a measure that every step decreases.
* **The protocol** (`Handoff.dfy`): a transition system with the lock table, the
  ledger (leases and cleanup marks), the inventory, the hosts (which cards run a
  keeper) and what was last observed. `Session` is the bookkeeping of one task
  between taking and giving back its locks; `Allowed` and `After` say which helper
  call or ledger write may come next. At any moment, outside all locks, workers die,
  starts that were given up on act after all, probes observe, cards leave the inventory
  and return, endpoints stop answering, records are dropped for that or by an operator,
  other leases change and new tasks arrive. A task can be cut short after any of its
  calls, and the daemon can be killed and started again. `History` remembers what has
  gone wrong with a card since its worker was last asked to start.
* **What holds** (`HandoffInvariant.dfy`, `HandoffPromises.dfy`): the invariant `Good`
  of every run, and the theorems that read the daemon's promises off it.
* **Sample runs** (`RunBuilding.dfy`, `KeptKeepers.dfy`, `LostKeepers.dfy`): runs in
  which everything goes well, so that a confirmed start is leased and a reclaimed card
  handed over; and runs in which one of these things goes wrong and a keeper is left
  that nobody knows of, or that a claim meets.
* **The operation log** (`Operation.dfy`): one task's calls and writes in order,
  with the invariant that each was allowed when it happened.
* **The adapter** (`KeepaliveAdapter.dfy`): the sealed helper's preflight, mutation
  and attestation, the exact-mapping validators, and what an error says about
  whether anything was sent.
* **The daemon's bodies** (`Reconcile.dfy`, `Reclaim.dfy`): clean up, start,
  recover, stop; reclaim, then claim. They are imperative and write their calls to
  the log. What hosts and ledger answer is a parameter, so the contracts say
  exactly when each operation succeeds; the log invariant says that no answer
  takes an operation outside the protocol.
* **The bodies inside runs** (`DaemonRuns.dfy`): whatever else happens in a run, what a
  task does between entering and leaving its body is a log, its session is that log
  replayed, and every finished log of the daemon's bodies can be such a log, event by
  event, with the way out open at its end.

What the ledger service does is taken from its own code, as small contracts
written into `Handoff.Effect` and `Handoff.Forgets`: a confirmation is one atomic
batch; a lease is finalised only if a late enough observation shows its card empty; a
card has at most one active lease; a claim neither creates nor removes a keeper lease;
outside the locks the lease of a running keeper goes only with a card that left the
inventory, by an operator on an observation that shows the card empty, or on an endpoint
that does not answer, and its mark only with such a card or when a collection finds the
leased keeper.
On the hosts, a helper touches only the requested cards, in the requested direction.
What it answers is not trusted: an exact "stopped" answer may be given while the worker
runs on, and the theorems say what then still holds. A ledger write may be refused, and
a confirmation or release may be the replay of an earlier one.

## The other parts

* `Reminders.dfy`: the debounce, clearing and capacity rules, against what a whole
  history of evaluations says.
* `Coalesce.dfy`: folding capacity notices; nothing lost, and no cover by groups of
  a minute is smaller.
* `RateLimiter.dfy`: the pruned queue against the full history of accepted hits.
* `Chart.dfy`: gap threshold, line segments, nearest sample.
* `GpuTable.dfy`: the GPU table of a probe and the CUDA ordinals.
* `ProbeSections.dfy`: splitting the probe's output inverts its printing.
* `SshCommand.dfy`: the accepted SSH command and its normal form.
* `PolicyBlock.dfy`: replacing the marked block in a rule file.
* `Prelude.dfy`, `Strings.dfy`, `Sorting.dfy`: what these share.

## Where the code and its own words differ

* The stop phase raises "helper unreachable" with the words that no keeper was
  touched, and a comment beside it says this happens when every card failed the
  same way (src/serverpilot/api.py:809-823). The code looks only at the recorded
  failures. `Reconcile.UnreachableAfterARelease` is an input on which a lease was
  released and the error still says so. `Reconcile.StopPhase` says, on plan and answers
  alone, when the error is raised, and that its words are then false exactly when some
  other stop was released. The model follows the code.
* The cleanup marks and leases are there so that no keeper runs unrecorded. That fails,
  and `HandoffPromises.UnrecordedExactlyAfterAnEscape` with `HandoffPromises.ForsakenExactlyByEscape`
  says exactly when; each cause has its run:
  - a card leaves the inventory while its keeper runs
    (src/serverpilot/service.py:5481-5553; `LostKeepers.ADepartedKeeperIsUnrecorded`), or
    an operator clears the lease of an endpoint that does not answer;
  - the helper starts workers before it writes their identities
    (src/serverpilot/server_keepalive.py:391-407), and answers "stopped" for a card it
    has no identity for (src/serverpilot/server_keepalive.py:422-429), so the stop after
    a start whose identities were not written is answered exactly and no mark is left
    (`LostKeepers.ADeniedStartIsLost`);
  - a start whose SSH call was given up on acts only after that stop
    (`LostKeepers.ALateStartIsLost`);
  - an endpoint's account may be changed while it has only cleanup marks, as the guard
    looks at leases (src/serverpilot/service.py:9652-9655); the new account's helper
    denies the old one's worker and the mark is removed
    (`LostKeepers.AFinishedCleanupIsLost`);
  - the write of a mark fails, or its task or the whole daemon is cut short before it
    (`LostKeepers.AnUnwrittenMarkIsLost`, `LostKeepers.AnAbandonedStartIsLost`);
  - a confirmation is the replay of an earlier one with the same idempotency key
    (src/serverpilot/service.py:3613-3619; `LostKeepers.AReplayedConfirmationIsLost`).
* The handoff to a claim does not depend on what helpers answer, only on observations
  after the stop. Two things get past it: a late start (`LostKeepers.ALateStartMeetsAClaim`
  is such a run) and the replay of an earlier release. `HandoffPromises.ClaimFindsItsCardsEmpty`
  says that nothing else does.
* A claim chooses the endpoints to lock before it waits for the locks, and plans after
  (src/serverpilot/api.py:326-350, 838-856). An endpoint that joins in between can be
  planned without being locked (`Reclaim.ALatecomerIsNotLocked`);
  `Reclaim.LocksCoverExactly` says when the locks cover every plan.
* A blank rule file is not a fixed point of the policy install: the second install
  adds a blank line on top (`PolicyBlock.BlankSettlesAtTheSecond`). Blank files are
  the only ones: `PolicyBlock.IdempotentExactlyOffBlank`.
* The check for control characters in an SSH command refuses nothing that the
  pattern behind it would accept (`SshCommand.AcceptsExactly` does not mention it).

## Model

| member | source | states |
|---|---|---|
| Locks.MutualExclusion | src/serverpilot/api.py:365-386 | In every state a run can reach, two tasks never own the same endpoint's lock. |
| Locks.StepInv | src/serverpilot/api.py:375-386 | Asking, being granted, entering, working, leaving and giving back all keep the queue invariant: every queue holds exactly its owner and those in line, without repetition. |
| Locks.SomeoneCanMove | src/serverpilot/api.py:375-386 | While any task is unfinished some task can move: following "waits for the owner of" climbs in the lock order and must end. |
| Locks.MaximalRunFreesEverything | src/serverpilot/api.py:375-386 | Every run of any number of tasks is finite, and one that cannot go on has finished every task and freed every lock. |
| Locks.StepDecreases | src/serverpilot/api.py:375-386 | The measure behind that: every step of every task uses some of what remains. |
| HandoffInvariant.RunGood | src/serverpilot/api.py:502-836 | The protocol's invariant holds after every run, for any interleaving of tasks, any answers of the helpers, late starts, tasks cut short, restarts of the daemon, and records dropped outside the locks. |
| HandoffPromises.FreeEndpointsAreAccountedFor | src/serverpilot/api.py:560-682 | Whenever an endpoint's lock is free, every running keeper on it has an active keeper lease or a cleanup mark, if nothing has gone wrong with it since its worker was last asked to start: no record dropped out of the daemon's sight, no false exact "stopped", no late start, no replay, no mark left unwritten. |
| HandoffPromises.ConfirmationLeases | src/serverpilot/service.py:3601-3757 | A successful confirmation that is no replay leases every one of its cards, each seen with its worker late enough and under a lease of its own, takes their marks, and leaves every other record as it was. |
| HandoffPromises.ReleaseEndsTheLease | src/serverpilot/service.py:3861-3969 | A successful release that is no replay ends exactly the lease that was read for the card, on a late enough sighting that shows it empty. |
| KeptKeepers.AConfirmedStartIsLeased | src/serverpilot/api.py:643-682 | A run in which a start is answered, seen and confirmed: every lock is free, the keeper runs under a lease, without a mark, and nothing has gone wrong. |
| KeptKeepers.AKeeperIsHandedOver | src/serverpilot/api.py:901-989 | A run from a leased running keeper to a granted claim of its card: stopped, seen empty, released, and nothing has gone wrong. |
| KeptKeepers.AMarkedWorkerIsCleanedUp | src/serverpilot/api.py:560-595 | A run in which a marked worker is stopped and its mark removed. |
| HandoffPromises.UnrecordedExactlyAfterAnEscape | src/serverpilot/api.py:560-682 | Without that condition: on a free endpoint a running keeper has neither lease nor mark exactly when some step of the run let it escape and nothing has accounted for it since. |
| HandoffPromises.ForsakenExactlyByEscape | src/serverpilot/api.py:611-641 | The steps that leave a running keeper to nobody are exactly these: its record is dropped outside the tasks, a command given up on starts it unrecorded, a task's exact stop, replayed confirmation or refused mark closes it, a cleanup's end or a release takes its last record, or its task or the daemon is cut short. |
| HandoffPromises.SlipsForAReason | src/serverpilot/service.py:5481-5553 | Outside the tasks a keeper escapes only on a departed card or an endpoint that does not answer, or by a late start, unless something had gone wrong with it before; an operator who clears a lease on an empty observation lets nothing else escape. |
| HandoffPromises.UncoversForAReason | src/serverpilot/api.py:587-641 | Within a task a keeper escapes only by a false exact "stopped", a replayed confirmation or a refused mark; a finished cleanup lets go only what a helper had denied or what had started late, a release only the latter. |
| LostKeepers.ADepartedKeeperIsUnrecorded | src/serverpilot/service.py:5481-5553 | A run in which a card departs while its keeper runs: every lock is free, the keeper runs, and neither lease nor mark is left. |
| LostKeepers.ADeniedStartIsLost | src/serverpilot/server_keepalive.py:416-429 | A run in which a start is not answered, its worker runs, and the stop after it is answered exactly: every lock is free, the keeper runs on a present card of an answering endpoint, and neither lease nor mark is left. |
| LostKeepers.ALateStartIsLost | src/serverpilot/api.py:611-641 | The same end when the start acts only after its stop. |
| LostKeepers.AFinishedCleanupIsLost | src/serverpilot/service.py:9636-9655 | The same end when a marked worker's stop goes to a helper that knows nothing of it. |
| LostKeepers.AnUnwrittenMarkIsLost | src/serverpilot/api.py:626-634 | The same end when neither start nor stop is answered and the mark cannot be written. |
| LostKeepers.AReplayedConfirmationIsLost | src/serverpilot/service.py:3613-3619 | The same end when the start's confirmation is answered with an earlier result. |
| LostKeepers.AnAbandonedStartIsLost | src/serverpilot/api.py:643-653 | The same end when the daemon is restarted during the start. |
| LostKeepers.ALateStartMeetsAClaim | src/serverpilot/api.py:977-989 | A run in which a claim is granted a card on which a start given up on before acts after the card was stopped and seen empty. |
| HandoffPromises.ClaimFindsItsCardsEmpty | src/serverpilot/api.py:977-989 | When a reclaim's claim commits, in any run and whatever the helpers answered, a planned card runs a keeper only if that started late or its release was a replay, and has a keeper lease only after a replay; without replays, no planned card runs a keeper exactly when none started late. |
| HandoffPromises.OnlyTheOwnerStarts | src/serverpilot/api.py:1004-1008 | While a task is inside its locks nobody else creates a keeper lease on its endpoints or starts a keeper there, but for a start given up on before that acts late. |
| HandoffInvariant.ActKeepsSession | src/serverpilot/service.py:3861-3969 | What a session has established about its cards (stopped unless denied or late, released and empty unless late or replayed, lease re-read, clock) stays true through its own calls and writes, replayed ones included. |
| HandoffInvariant.FinalizeFrees | src/serverpilot/service.py:3861-3969 | A release takes away at most the named lease, of a card that runs no worker unless that started late; what the session then holds freed is empty and leased to no keeper, but for late starts and replays. |
| HandoffPromises.StuckWorldIsSettled | src/serverpilot/api.py:502-836 | No reachable world is deadlocked; in one with nothing left to do every lock is free, and of the running keepers only those have no record with which something has gone wrong. |
| HandoffPromises.MovesAreBounded | src/serverpilot/api.py:502-836 | Between arrivals and restarts tasks move only finitely often, by an explicit budget. |
| Operations.Operation.Emit | src/serverpilot/api.py:502-836 | An allowed call extends the log by exactly itself and keeps it within the protocol. |
| DaemonRuns.EveryBodyPerformsALog | src/serverpilot/api.py:502-836 | In every run, what a task does from entering its body on is some log of acting steps, whatever others do in between. |
| DaemonRuns.SessionIsItsLogReplayed | src/serverpilot/api.py:502-836 | In every run the task's session is its log replayed from a new session, every event of the log was allowed, and each used up one step of its budget. |
| DaemonRuns.NextEventActs | src/serverpilot/api.py:502-836 | The next event of a finished log, with any effects it may have on the world, is an acting step of the transition system. |
| DaemonRuns.FinishedLogIsARun | src/serverpilot/api.py:502-836 | Worlds that follow a finished log event by event are a run of its task, and at the end it can give back its locks without letting go of anything. |
| DaemonRuns.ReconcileTask | src/serverpilot/api.py:502-836 | Whatever plan, hosts and ledger say, a reconciliation leaves a finished log that names planned cards only. |
| DaemonRuns.ReclaimTask | src/serverpilot/api.py:838-1040 | Under the locks chosen from an endpoint table, for every plan drawn from that table and whatever hosts and ledger say, a claim's reclaim leaves a finished log, ended by its claim if that is granted. |
| DaemonRuns.ReclaimedCardsAreEmpty | src/serverpilot/api.py:977-989 | In every run in which a task performs a log ended by a granted claim, a planned card had a running keeper when the claim committed only by a late start or a replayed release, and a keeper lease only by the latter. |
| KeepaliveAdapter.ProbeHelper | src/serverpilot/adapters.py:374-429 | The preflight passes exactly for a compatible helper; what it blames on the helper is certain; a timeout, a failed start or ssh's own exit code means unreachable. |
| KeepaliveAdapter.SetEnabled | src/serverpilot/adapters.py:431-492 | A command error is marked uncertain exactly when the mutating command was spawned, is certain exactly for faults known before it, blames an unreachable helper exactly when the preflight got no answer, names the first fault in the order of the call, and success means an answer naming exactly the requested cards in the wanted state. |
| KeepaliveAdapter.ValidateExactResultMapping | src/serverpilot/adapters.py:545-564 | Against a request without repetition, an answer is accepted exactly when it rearranges the request, all in the wanted state: no card widened, left out or named twice. |
| KeepaliveAdapter.CodesAreHonest | src/serverpilot/api.py:226-249 | Of the codes a failed mutation is reported under, an uncertain outcome or a helper's message means exactly that the command was spawned, and an unreachable helper exactly that its preflight got no answer. |
| KeepaliveAdapter.UuidsAreExact | src/serverpilot/keepalive_protocol.py:31-33 | A card id is the prefix and five groups of eight, four, four, four and twelve hexadecimal digits. |
| KeepaliveAdapter.AttestWorkers | src/serverpilot/adapters.py:494-575 | Succeeds exactly when the preflight passes and the helper names one worker for each requested card; otherwise it names the first fault, never as uncertain; it sends no mutation. |
| KeepaliveAdapter.ResultByGpuUuid | src/serverpilot/api.py:407-440 | Gives a result for every requested card, found in the answer, exactly when there is one each in the wanted state. |
| KeepaliveAdapter.AttestedIdentities | src/serverpilot/api.py:442-500 | Gives each requested card its driver-visible identity exactly when there is one sound worker per card. |
| Reconcile.CleanupPhase | src/serverpilot/api.py:560-595 | A cleanup mark goes exactly when the stop was answered exactly and the ledger agrees; otherwise it stays and other work goes on; nothing is started and only marked cards are touched. |
| Reconcile.CleanupFailedStart | src/serverpilot/api.py:611-641 | A failed start ends with one ledger write, with a cleanup mark exactly when the remote stop was called for and not verified; if the ledger refuses that write, its error is raised and the mark is lost; without remote cleanup nothing is sent. |
| Reconcile.StartVerified | src/serverpilot/api.py:643-653 | A failed start skips the remote cleanup exactly when the fault was known before the command, and then the log is unchanged. |
| Reconcile.StartPhase | src/serverpilot/api.py:597-682 | A start succeeds exactly when the command, the attestation, the collection and the ledger all agree, as one batch of exactly the planned cards; every other ending tries to mark the cards exactly when their stop is not verified, and says so unless the ledger refuses the write; without a mark it blames the command's fault, else that of the acceptance, unless a last collection fails. |
| Reconcile.Activate | src/serverpilot/api.py:655-682 | Confirmation happens only after attestation and a collection that follow a fresh clock reading, for all cards at once; a refusal carries the first thing that went wrong. |
| Reconcile.RecoverPhase | src/serverpilot/api.py:683-731 | Recovery succeeds exactly when helper and ledger agree, and never sends a mutation. |
| Reconcile.StopOne | src/serverpilot/api.py:766-806 | One card gets at most one stop command and is released exactly when a collection after it succeeds and the ledger lets it go, whatever the helper said; a failure carries the helper's fault if there is one, else that of the observation. |
| Reconcile.PrepareStops | src/serverpilot/api.py:732-765 | Every lease is re-read before anything is sent; exactly the stops whose lease is still the planned one go on, in plan order, and each other one is a recorded failure. |
| Reconcile.StopPhase | src/serverpilot/api.py:732-836 | Every planned card is either released or one recorded failure under its exact code; there is an error exactly when there is a failure; each prepared card gets its one attempt, in order, whatever happened to the others; "helper unreachable", "helper incompatible" and "partial stop" are each raised exactly on the plans and answers that call for them, and the first tells the truth exactly when no stop was released. |
| Reconcile.UnreachableAfterARelease | src/serverpilot/api.py:809-823 | An input on which a card was released and the error still says that nothing was touched. |
| Reconcile.ReconcileEndpoint | src/serverpilot/api.py:502-836 | One pass ends with nothing open, sends commands about planned cards of its endpoint only, starts only cards planned to start, finishes without an error exactly when every part of its plan goes well, and has then cleaned up, started and confirmed, recovered, and released what the plan says, in this order. |
| Reclaim.ReadTargets | src/serverpilot/api.py:857-888 | A plan is used exactly when it is complete, not empty, well-formed in every entry and names no card twice. |
| Reclaim.GroupByEndpoint | src/serverpilot/api.py:889-891 | Every target is in the group of its endpoint, once, in order, and endpoints come in the order of their first targets. |
| Reclaim.PrepareTargets | src/serverpilot/api.py:901-912 | Goes on exactly when every target still has its planned lease, and gives the plan up exactly when the first one that has not is found with another lease or none; nothing has been sent by then. |
| Reclaim.ReclaimHost | src/serverpilot/api.py:892-976 | An endpoint hands its cards over exactly when leases, stop, collection and releases all succeed; then every card is stopped by an exact answer and released. It gives the plan up exactly without an adapter or on a changed lease; any other failure is an error, under the helper's fault if there is one. |
| Reclaim.StopIsVetted | src/serverpilot/api.py:901-924 | The one stop of an endpoint names only planned cards whose lease was re-read as the planned one since the reclaim began. |
| Reclaim.ReclaimKeepaliveForClaim | src/serverpilot/api.py:838-989 | On every path only planned, re-checked cards are sent and only planned leases released; the claim runs and commits exactly when the plan can be read, every endpoint hands over and the claim is granted; the plan is given up exactly when it cannot be read or the first endpoint that does not hand over gives it up. |
| Reclaim.ClaimUnderLocks | src/serverpilot/api.py:1008-1043 | Claims, resizes and reassignments try the ordinary way first and reclaim only for the one "blocked by cards" error; the fallback decides exactly when the plan is given up, and any other failure of the reclaim is raised whatever the fallback would say. |
| Reclaim.LocksCoverExactly | src/serverpilot/api.py:326-350 | The locks a claim holds cover every usable plan drawn from the present endpoints exactly when they reach every endpoint with an adapter that may be selected now. |
| Reclaim.ALatecomerIsNotLocked | src/serverpilot/api.py:1000-1008 | An endpoint that joins while the claim waits for its locks can be in a usable plan without being locked. |
| Reminders.RowMatchesHistory | src/serverpilot/service.py:6967-7031 | After any history with a monotone clock, the whole row can be read off the history: told or not; acknowledged exactly when somebody did so since it was told; dated where the presence that was told of began, unless it was seen again after a gap in watching; and how many misses since the condition was last seen, evaluations with unseen cards not counted. |
| Reminders.ToldAndClearedExactly | src/serverpilot/alerts.py:71-90 | A row becomes active at exactly the first evaluation at which the condition has held unbroken for the required time, and a told row closes at exactly the evaluation completing the required misses since the condition was last seen. |
| Reminders.CapacityMatchesHistory | src/serverpilot/service.py:7200-7263 | The whole capacity row can be read off the history: waiting exactly after an empty evaluation, counting since the first free one after it, told exactly if it was ripe since, acknowledged exactly when somebody did so since then; skipped evaluations change nothing else. |
| Reminders.CapacityFiresExactly | src/serverpilot/alerts.py:93-116 | A capacity notice fires exactly at the first evaluation after an empty one at which cards were seen ever since, the settling time has passed and the last notice has rested. |
| Coalesce.Batch | src/serverpilot/alerts.py:127-135 | The greedy loop gives the alerts back in order, in non-empty batches spanning at most a minute, each head more than a minute after the one before. |
| Coalesce.NoFewerBatches | src/serverpilot/alerts.py:127-135 | No cover of the alerts by groups spanning at most a minute has fewer groups. |
| Coalesce.CoalesceAlerts | src/serverpilot/alerts.py:119-142 | First come exactly the alerts that are not about capacity, unchanged and in order; the capacity alerts, by time and then by place, fall into batches of at most a minute with heads more than a minute apart; each notice shows the earliest alert of its batch and lists its ids, together they list every capacity id once in that order, and no cover by such notices is smaller. |
| Sorting.SortArranges | src/serverpilot/alerts.py:123-126 | Sorting takes every element from its own place, by the order, and equal ones in the order they came. |
| RateLimits.RateLimiter.Check | src/serverpilot/api.py:76-88 | The queue is always the accepted hits of the last 60 seconds; a request is refused exactly when they have reached the limit; other actors are not affected. |
| RateLimits.NoWindowHoldsMore | src/serverpilot/api.py:76-88 | For every instant, no more than the limit of one actor's accepted hits lie in the 60 seconds before it. |
| RateLimits.PrunedIsWindow | src/serverpilot/api.py:79-80 | Dropping old hits from the front leaves exactly the window of the full history. |
| Chart.AtMostHalfAreGaps | desktop/EndpointHistoryChart.swift:609-621 | At most half of the positive sampling intervals are ever counted as gaps. |
| Chart.GapCountIsExact | desktop/EndpointHistoryChart.swift:609-612 | The gaps counted are exactly the sampling intervals longer than the threshold. |
| Chart.MedianIsCentral | desktop/EndpointHistoryChart.swift:614-619 | The median in the threshold has no more than half of the intervals below it and no more than half above. |
| Chart.ThresholdIsCentral | desktop/EndpointHistoryChart.swift:614-621 | There is a gap threshold exactly from two positive intervals on, and it is two and a half times a value with no more than half of them on either side. |
| Chart.LineSeries | desktop/EndpointHistoryChart.swift:568-588 | Every sample with a value gives one point, in order; two points share a segment exactly when no missing value and no gap over the threshold lies between them. |
| Chart.SameRaisesMeansUncut | desktop/EndpointHistoryChart.swift:575-581 | The segment number is the same at two samples exactly when nothing in between cuts the line. |
| Chart.Selection.UpdateSelection | desktop/EndpointHistoryChart.swift:367-387 | The binary search selects an item nearest to the date among all items, the earlier one on a tie, and nothing changes without items. |
| GpuTable.ParseGpuCsv | src/serverpilot/collector.py:400-457 | The first row that cannot be taken decides the error, then an empty table, then a value out of range; otherwise the result is all data rows in bus order, numbered from 0. |
| GpuTable.ParsedExactlyWhenAcceptable | src/serverpilot/schemas.py:383-396 | A table is accepted exactly when every data row can be read, no two cards share index, UUID or bus place, there is a card, and every value and ordinal is within the limits of a telemetry record. |
| GpuTable.OrdinalsRankByBus | src/serverpilot/collector.py:454-457 | Ordinals 0 to n-1 go one to a card, each with its own row's values, in exactly the order of (domain, bus, device, function). |
| GpuTable.RowOrderDoesNotMatter | src/serverpilot/collector.py:400-457 | The same rows in any order are accepted alike and give the identical result. |
| GpuTable.BusKeyReadsBack | src/serverpilot/collector.py:136-148 | A bus place is read back from its print, in any of the accepted domain widths. |
| GpuTable.PlacesAreExact | src/serverpilot/collector.py:133-142 | A text is taken for a bus place exactly when it is four to eight, two and two hexadecimal digits of either case and one octal digit with their separators. |
| GpuTable.RowReadsBack | src/serverpilot/observation_probe.py:3-7 | Given number texts that read back, what the driver prints for a card in the column order the probe asks for is read back column by column as that card, missing values included. |
| ProbeSections.ParsingInvertsPrinting | src/serverpilot/collector.py:641-660 | For sections that are empty or end their line and do not hold the next marker, parsing what the probe prints returns exactly the stripped sections. |
| ProbeSections.SectionSplits | src/serverpilot/observation_probe.py:37-66 | No marker occurrence straddles the seam between a section and the marker behind it, although markers overlap themselves. |
| ProbeSections.LeadingDataIsRefused | src/serverpilot/collector.py:652-653 | Anything but blanks before the first marker is refused. |
| ProbeSections.IncompleteExactlyWithoutMarkers | src/serverpilot/collector.py:644-651 | An output is refused as incomplete exactly when the five markers do not occur in it one behind the other. |
| PolicyBlock.OneBlockRemains | src/serverpilot/agent_contract.py:230-257 | Every accepted install leaves exactly one current block, the rendered one, and no legacy marker. |
| PolicyBlock.OutsideSurvives | src/serverpilot/agent_contract.py:247-257 | The text before and after the block survives, up to blanks at the seams. |
| PolicyBlock.LastInstallWins | src/serverpilot/agent_contract.py:230-257 | Over any accepted non-blank file, a later install leaves what it alone would have left. |
| PolicyBlock.IdempotentExactlyOffBlank | src/serverpilot/agent_contract.py:230-257 | Over any accepted file, installing one policy twice changes nothing the second time exactly when the file is not blank. |
| PolicyBlock.BlankSettlesAtTheSecond | src/serverpilot/agent_contract.py:255-257 | A blank file takes the bare block first, differs once more at the second install, and is then a fixed point. |
| SshCommand.RecogniseIsThePattern | src/serverpilot/importer.py:15-19 | The recogniser accepts exactly the texts of the command pattern and captures what the pattern captures. |
| SshCommand.AcceptsExactly | src/serverpilot/importer.py:42-79 | A command names a destination exactly when it is at most 512 characters of the pattern with a port in range, a valid host and a short enough id. |
| SshCommand.NormalFormParsesBack | src/serverpilot/importer.py:36-39 | The normal form of every accepted command is accepted and names the same user, host and port. |
| SshCommand.OneNormalFormEach | src/serverpilot/importer.py:36-39 | Two accepted commands share a normal form exactly when they name the same destination. |
| SshCommand.NormalHostIsFixed | src/serverpilot/importer.py:59-70 | A normalised host, address or name, is valid and its own normal form. |
| SshCommand.HostsAreExact | src/serverpilot/importer.py:56-70 | A host has a normal form exactly when it is at most 253 characters and either digits and dots that spell an address, which is kept, or labels between dots, which come out in small letters. |
| SshCommand.LabelsAreExact | src/serverpilot/importer.py:20 | A label is a letter or digit, or two of them with at most 61 letters, digits and dashes in between. |
| SshCommand.UsersAreExact | src/serverpilot/importer.py:15-19 | A user is a letter or an underscore and up to 31 letters, digits, underscores and dashes. |
| SshCommand.AddressesAreFourOctets | src/serverpilot/importer.py:59-64 | A host of digits and dots is accepted exactly when it is four numbers up to 255 as they print, and kept as it stands. |
| SshCommand.ReadPrintsBack | src/serverpilot/importer.py:61-64 | Digits without a needless zero in front are the print of their own value. |
| SshCommand.AcceptedIdsAreInventoryIds | src/serverpilot/config.py:276 | The endpoint id derived from an accepted command has the form the inventory requires. |
| SshCommand.IdTellsPortAndSlug | src/serverpilot/importer.py:31-34 | Two destinations share an endpoint id exactly when their ports agree and their hosts differ in separator characters only. |
| SshCommand.SlugIsItsWords | src/serverpilot/importer.py:31-34 | The host's part of the id is its stretches of a-z and 0-9, in order, with one dash between them. |

## Left out

- HandoffInvariant.RunGood: a task is cut short inside its locks only. One cancelled while it waits for a later lock would keep the earlier ones, because they are released only once all are held (src/serverpilot/api.py:375-386); that is not modelled. One physical card registered under two endpoints is two cards here, each started and stopped through its own endpoint's helper; what is dropped when one registration takes it over is modelled as its departure from the other. A process counts as seen in the latest observation only, without the grace during which an older sighting stays current.
- HandoffPromises.ClaimFindsItsCardsEmpty: that the ledger itself refuses to claim a card with an active lease is not used.
- Reclaim.ReclaimKeepaliveForClaim: the operation must have been opened for the plan's endpoints with an adapter, because nothing in the code checks that they are locked; `Reclaim.LocksCoverExactly` says when they are. It does not claim that reclaim is all-or-nothing: a later endpoint's refusal leaves earlier endpoints' keepers released.
- Reclaim.ClaimUnderLocks: the same hypothesis on the plan's endpoints.
- DaemonRuns.ReclaimTask: takes the plan to be drawn from the endpoint table the locks were chosen from.
- KeepaliveAdapter.SetEnabled: a recognised remote message is a number, and a helper's own message is taken not to spell out one of the two preflight codes.
- GpuTable.ParseGpuCsv: number texts such as "81 %" are read by parameters, and rows arrive already split into columns; an infinite value, on which the conversion raises another error, is not modelled.
- GpuTable.RowReadsBack: assumes that the reading of numbers undoes their printing, for the same reason.
- Reminders.RowMatchesHistory: per-type holds are parameters, and messages and delivery are left out.
- Coalesce.CoalesceAlerts: timestamps are numbers, so the stored texts are taken to sort as the times they name.
- RateLimits.RateLimiter.Check: times are reals, without rounding, and the thread lock is not modelled.
- PolicyBlock.IdempotentExactlyOffBlank: assumes, like the other policy theorems, a policy text without any of the four markers.
- The numbering of endpoints: their number here is their place in sort order. A card is an endpoint and a UUID; the ledger's separate card id is not modelled.
- The contents of the ledger's idempotency records (any confirmation or release may be a replay), the allocator, policy changes and idle reclaim. A claim may change workload leases in any way; it does not touch keeper leases.
- SSH, subprocesses, HTTP routing, the database, JSON and CSV decoding, error texts in two languages, logging.
- SwiftUI views, freshness, retention, configuration validation, CLI commands, the bounded reader and the body limit: true but easy.
