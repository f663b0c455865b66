# BusinessOS kernel protocols in Dafny

BusinessOS is a platform kernel whose risk lies in a handful of small concurrent
protocols and graph algorithms. This project models them and proves what they
keep over every run.

Each protocol is a state machine. A state is a value; one step is what the
program does between two awaits, inside one lock, or inside one database
transaction; a run is any sequence of steps. A step whose task is not in the
right place changes nothing, so the theorems range over every sequence of steps
from the initial state. Timeouts, cancellations, crashes, lost connections and
late messages are steps that may come at any time. Where the program updates an
object in place, a class with the object's fields has methods proved equal to
those steps, and the theorems about the state machine are theorems about it.

| file | what it models |
|---|---|
| `KeyedAdmission.dfy` | first-in-first-out admission among overlapping key sets |
| `PublicationPools.dfy`, `ExecutionPools.dfy` | reference-counted database pools under admission, rotation and close |
| `OutboxPublication.dfy`, `EventDelivery.dfy`, `BusDelivery.dfy`, `ObligationTable.dfy` | the transactional outbox, a duplicating broker, inbox claims and acknowledgement; the bus as the delivery sees it, and the obligation table the workers share |
| `WaitGraph.dfy`, `SingletonOrder.dfy` | the dependency container: counted waits, publication order, teardown, owner validation |
| `MigrationGraph.dfy`, `MigrationHandshake.dfy`, `MigrationHistory.dfy` | the revision graph, the parent and child commit handshake, the recorded history |
| `FencedStorage.dfy` | conditional object writes that may land late, and tombstones |
| `AuditChain.dfy` | the audit hash chain and its integrity check |
| `ContributionGate.dfy`, `EventBus.dfy` | module generations and their drain; handlers and durable obligations |
| `ResourceOwnership.dfy`, `LegacyMapping.dfy` | resource claims and operation validations; the reviewed legacy mapping and its preflight |
| `Paths.dfy`, `Sorting.dfy`, `Collections.dfy`, `Wrappers.dfy` | walks and cycles, insertion sort, small facts about sets, option and result types |

Conventions. Names, ids and keys whose only use is comparison are natural
numbers, ordered as the program orders the strings. Hashes, version texts,
reference parsing and canonical patterns are function parameters; a theorem that
needs a hash to be injective or never empty says so in its `requires`. Conditional
writes follow sections 13.1.1 and 13.1.2 of RFC 9110. `dafny verify
dfyconfig.toml` checks the whole project.

Five promises hold only under a condition, stated exactly, each with a run that
breaks it.

- A drained generation is marked inactive only when idle exactly when no drainer
  woken by an earlier zero is still about to resume
  (`ContributionGate.InactiveMeansIdleExactlyWhenQuiet`, `RepublishDefeatsDrainer`).
- Withdrawing an unpublished subscription restores the event bus exactly unless the
  name had obligations but no class (`EventBus.WithdrawnSubscription`,
  `WithdrawnClassStays`).
- A protected execution pool that is out of use and has no holder has been closed
  exactly when no cancellation lost one of its releases or interrupted its rotation
  while it waited for the lock
  (`ExecutionPools.RetiredIsClosedExactlyWhenNothingWasLost`, `CancellationLeaks`).
- A failed rotation of the protected execution authority revokes new admissions
  exactly when its handler was not interrupted before it took the lock
  (`ExecutionPools.FailureRevokesExactlyWhenUninterrupted`,
  `InterruptedFailureStillAdmits`).
- A landed tombstone stays exactly when no worker whose database session dropped,
  and the advisory lock with it, is still writing that record
  (`FencedStorage.TombstoneIsForever`, `LostLockResurrects`).

The table lists the results and the methods of the classes; the one-step facts they
rest on are in the files.

## Model

| member | source | states |
|---|---|---|
| KeyedAdmission.RunKeepsInv | platform/src/businessos/database_admission.py:31-75 | over every run, timeouts, cancellations and close included, the bound, exclusion and the no-lost-wakeup invariant hold and the limit stays |
| KeyedAdmission.AdmissionIsExclusive | platform/src/businessos/database_admission.py:31-70 | over every run no two admitted tickets share a key and the queue never exceeds its limit |
| KeyedAdmission.TicketsDoNotReturn | platform/src/businessos/database_admission.py:67-70 | a ticket that has left never comes back and a queued ticket keeps its keys |
| KeyedAdmission.FirstInFirstOut | platform/src/businessos/database_admission.py:42-50 | when a ticket is admitted, every earlier overlapping ticket has left the queue |
| KeyedAdmission.HeadCanMove | platform/src/businessos/database_admission.py:42-50 | in every reachable state, while open, the head of the queue is eligible and is not asleep |
| KeyedAdmission.OwnTurnAdmitsExactlyTheEligible | platform/src/businessos/database_admission.py:43-50 | whatever the step, a ticket becomes admitted exactly by its own turn of the wait loop, and exactly when the queue is open and nothing earlier overlaps |
| KeyedAdmission.RankNeverRises | platform/src/businessos/database_admission.py:47-50 | over any run a waiter is blocked exactly by what blocked it before and has not left, so its rank falls with each that leaves and never rises |
| KeyedAdmission.EveryWaiterCanBeAdmitted | platform/src/businessos/database_admission.py:42-75 | every waiter is admitted once its blockers have left one by one and it takes one more turn: 2n+1 steps for n blockers, no other step needed |
| KeyedAdmission.Admission.Join | platform/src/businessos/database_admission.py:32-39 | appends a ticket unless closed or full, with the exact refusal, and wakes the sleepers |
| KeyedAdmission.Admission.Turn | platform/src/businessos/database_admission.py:43-50 | one turn of the wait loop over the list decides as the abstract step does |
| KeyedAdmission.Admission.Drop | platform/src/businessos/database_admission.py:62-70 | a ticket whose task stops waiting or ends its section leaves for good and every sleeper is woken |
| KeyedAdmission.Admission.Shut | platform/src/businessos/database_admission.py:72-75 | close refuses from then on and wakes the sleepers |
| PublicationPools.PoolsAreAccountedFor | platform/src/businessos/publication_database.py:260-451 | over every interleaving: lease counts equal unreleased leases, no active or leased pool is disposed, no pool is disposed twice, and an installed pool out of use is disposed |
| PublicationPools.QuiescenceLeaksNothing | platform/src/businessos/publication_database.py:260-451 | when no admission and no rotation is under way every pool ever built is the active one or was disposed exactly once |
| PublicationPools.ActiveChangesOnlyByRight | platform/src/businessos/publication_database.py:270-437 | in every reachable state the active pool changes only by the failed validation of that very pool, a failed rotation that looked at it with nothing installed since, a rotation's own cutover while open, or close |
| PublicationPools.ClosedStaysClosed | platform/src/businessos/publication_database.py:445-451 | once closing began nothing new is admitted, and once close finished nothing is active, in every later state |
| PublicationPools.Authority.Admit | platform/src/businessos/publication_database.py:296-304 | reserves the active pool before validation and hands out one fresh unreleased lease, or refuses |
| PublicationPools.Authority.Conclude | platform/src/businessos/publication_database.py:305-331 | an admission ends with its lease kept, on a pool that is in use, counted and not being disposed of, or with the lease given back; only an unsound profile takes its pool out of use |
| PublicationPools.Authority.GiveBack | platform/src/businessos/publication_database.py:270-286 | releasing is idempotent per lease; the first release has the whole effect, counts staying equal to unreleased leases |
| PublicationPools.Authority.Switch | platform/src/businessos/publication_database.py:369-394 | the cutover on the object's own fields, refusing a replacement once closed |
| PublicationPools.Authority.Discard | platform/src/businessos/publication_database.py:439-443 | disposes a replacement that never came into use |
| PublicationPools.Authority.Close | platform/src/businessos/publication_database.py:445-451 | marks the authority closed, then takes the active pool out of use |
| ExecutionPools.NeverClosedWhileLeased | platform/src/businessos/database_execution.py:795-835 | over every run a pool is closed at most once and never while it is active or a task still holds it |
| ExecutionPools.RetiredIsClosedExactlyWhenNothingWasLost | platform/src/businessos/database_execution.py:795-906 | in every reachable state a pool out of use has been closed once exactly when no task holds it, none of its releases was lost and its rotation was not interrupted |
| ExecutionPools.WithoutLossNothingLeaks | platform/src/businessos/database_execution.py:795-906 | in a run without such a cancellation every pool out of use that nobody holds has been closed once |
| ExecutionPools.LeakIsForever | platform/src/businessos/database_execution.py:827-898 | a pool that lost a release, or its rotation, is not closed in any later state |
| ExecutionPools.CancellationLeaks | platform/src/businessos/database_execution.py:827-898 | a concrete run in which a cancelled release and a cancelled rotation leave two pools out of use that are never closed |
| ExecutionPools.FailureRevokesExactlyWhenUninterrupted | platform/src/businessos/database_execution.py:853-890 | a rotation that fails, in whatever reachable state, leaves nothing active exactly when its handler was not interrupted or nothing was active before |
| ExecutionPools.InterruptedFailureStillAdmits | platform/src/businessos/database_execution.py:882-890 | a concrete run in which the handler of a failed rotation is interrupted and the old pool goes on admitting |
| ExecutionPools.Authority.Lease | platform/src/businessos/database_execution.py:795-826 | admission hands out the active pool, never closed, or takes a pool whose authority is wrong out of use; the object keeps the invariants |
| ExecutionPools.Authority.GiveBack | platform/src/businessos/database_execution.py:827-835 | once a pool out of use has no holder it has been closed exactly when none of its releases was lost |
| ExecutionPools.Authority.Install | platform/src/businessos/database_execution.py:891-898 | a validated replacement comes into use, or is closed when the authority is |
| ExecutionPools.Authority.Fail | platform/src/businessos/database_execution.py:882-890 | a failed rotation closes its own replacement and takes the active pool out of use |
| ExecutionPools.Authority.Close | platform/src/businessos/database_execution.py:900-906 | close retires the active pool and closes it unless leased |
| WaitGraph.RepresentationIsUnique | platform/src/businessos/di.py:769-820 | the stored counts are determined by the multiset of waits, so equal waits mean equal dictionaries |
| WaitGraph.WaitPath | platform/src/businessos/di.py:822-839 | the recursive search returns a real path, or leaves what it visited closed under edges and free of the target |
| WaitGraph.FindWaitPath | platform/src/businessos/di.py:822-839 | a fresh search finds a path exactly when one exists |
| WaitGraph.AddWait | platform/src/businessos/di.py:788-803 | a wait is kept exactly when the graph stays acyclic with it; otherwise the graph is restored and a real cycle is named |
| WaitGraph.RemoveWaits | platform/src/businessos/di.py:805-820 | taking edges back removes exactly those multiplicities |
| WaitGraph.AddWaitChain | platform/src/businessos/di.py:769-786 | a chain is accepted exactly when the graph stays acyclic with all of it; a rejected chain leaves the graph as it was, multiplicities included |
| WaitGraph.SingletonWaits.Enter | platform/src/businessos/di.py:310-328 | every waiter's chain is added whole or not at all and the graph stays the acyclic multiset sum of the live chains |
| WaitGraph.SingletonWaits.Leave | platform/src/businessos/di.py:326-328 | a waiter that leaves takes back exactly its own chain |
| WaitGraph.SomePendingInitializerIsFree | platform/src/businessos/di.py:299-328 | among the pending initializers one is never blocked on another |
| SingletonOrder.ReachedWasPublishedEarlier | platform/src/businessos/di.py:358-400 | whatever an owner reaches through dependencies retained before publication was published before it |
| SingletonOrder.OrderIsTopological | platform/src/businessos/di.py:358-400 | in every reachable state, removals included, a published singleton stands after every published one it builds on |
| SingletonOrder.DependentsFinishFirst | platform/src/businessos/di.py:570-577 | reverse order finishes finalizing each dependent before it begins on anything the dependent reaches |
| SingletonOrder.RemovedDependentsFinishFirst | platform/src/businessos/di.py:606-612 | inside a removed generation each dependent is finished before anything it reaches is begun |
| SingletonOrder.Container.CleanupSingletons | platform/src/businessos/di.py:550-580 | cleanup ends every unfinished initializer, then closes every published singleton one after the other in reverse publication order, and leaves nothing unfinished, registered or published |
| SingletonOrder.Container.RemoveSingletonKeys | platform/src/businessos/di.py:582-626 | removing a generation ends exactly its initializers, then closes its singletons in reverse publication order and takes exactly its keys out of the order, which stays topological |
| SingletonOrder.ValidateFrom | platform/src/businessos/di.py:452-485 | the depth-first check leaves what it visited valid and closed under dependencies, or names a reached invalid owner |
| SingletonOrder.ValidateOwnerGraph | platform/src/businessos/di.py:449-485 | the check accepts exactly when every owner reached is valid, the root alone being excused from publication |
| MigrationGraph.Visit | platform/src/businessos/migrations.py:537-552 | visiting a revision numbers everything below it or closes a real cycle through the grey stack |
| MigrationGraph.RejectCycles | platform/src/businessos/migrations.py:532-555 | the three-colour search ends and rejects exactly the cyclic graphs, naming a real cycle |
| MigrationGraph.CheckReferences | platform/src/businessos/migrations.py:506-522 | the first reference that is missing or leaves its declared dependencies is named, and none is missed |
| MigrationGraph.BuildPlan | platform/src/businessos/migrations.py:499-530 | a plan exists exactly when all references are allowed and the graph is acyclic; it holds the same revisions in order, and its heads are, in ascending order, exactly the revisions that are nobody's parent |
| MigrationGraph.EveryRevisionReachesAHead | platform/src/businessos/migrations.py:523-528 | in an accepted graph every revision is an ancestor-or-self of some head |
| MigrationGraph.OnlyParentsHaveDescendants | platform/src/businessos/migrations.py:523-528 | no head is a proper ancestor of another revision |
| MigrationHandshake.CommitFollowsAuthorization | platform/src/businessos/migrations.py:656-660 | over every run the child has committed only if an earlier step answered its ready-to-commit with 'commit' over a pipe that still worked |
| MigrationHandshake.HonouredNeverCommits | platform/src/businessos/migrations.py:791-799 | after a cancellation was honoured no later state is committed |
| MigrationHandshake.CancelBeforeAuthorization | platform/src/businessos/migrations.py:791-799 | a cancellation reaching the loop before authorization means no continuation ever commits |
| MigrationHandshake.CancelAfterAuthorization | platform/src/businessos/migrations.py:791-795 | a cancellation reaching the loop after authorization never ends the call |
| MigrationHandshake.OutcomeIsFinal | platform/src/businessos/migrations.py:655-662 | a transaction's outcome never changes |
| MigrationHandshake.StoppingCanEnd | platform/src/businessos/migrations.py:898-914 | in every reachable state a parent stopping on an honoured cancellation can still end, with the transaction rolled back |
| MigrationHandshake.ResultsAreTrue | platform/src/businessos/migrations.py:749-774 | a normal return means committed and a reported child error means rolled back, then and ever after, whatever cleanup does |
| MigrationHandshake.MigrationParent.StopProcess | platform/src/businessos/migrations.py:898-940 | stopping drains what a cancelled child said and sends one abort to a living child |
| MigrationHandshake.MigrationParent.Answer | platform/src/businessos/migrations.py:733-749 | each message gets its one reply; only ready-to-commit is answered with commit |
| MigrationHandshake.MigrationParent.TakeTurn | platform/src/businessos/migrations.py:729-799 | one turn of the loop over the pipe is one step of the handshake |
| MigrationHandshake.MigrationParent.ExecuteAsync | platform/src/businessos/migrations.py:706-801 | under any schedule of child moves, kills, pipe loss and cancellations the call's result is true of the transaction |
| MigrationHistory.MigrationContinuesHistory | platform/src/businessos/migrations.py:665-690 | one migration attempt removes or rewrites no recorded revision and lowers no recorded version |
| MigrationHistory.HistoryIsAppendOnly | platform/src/businessos/migrations.py:1186-1343 | the same over any sequence of attempts, failed ones included |
| MigrationHistory.PersistFacts | platform/src/businessos/migrations.py:1268-1343 | persisting keeps the rows of modules it does not know and writes one row per registered module |
| MigrationHistory.WrittenRowReadsExactlyWhenCanonical | platform/src/businessos/migrations.py:121-210 | the strict reader accepts what was persisted for a module exactly when what the module contributed is canonical and unique |
| MigrationHistory.WrittenRowAgrees | platform/src/businessos/migrations.py:1186-1246 | the validator accepts a row for the plan that wrote it exactly when its version text parses |
| MigrationHistory.Inventory.PersistInventory | platform/src/businessos/migrations.py:1268-1343 | records every registered module in turn |
| MigrationHistory.Inventory.ExecuteTransaction | platform/src/businessos/migrations.py:665-690 | checks, migrates, records and commits, or leaves the database as it was; history continues either way |
| OutboxPublication.PicksAreOldestEligible | platform/src/businessos/eventing.py:84-90 | a batch is the oldest unpublished, unlocked rows, each once, short of its limit only by exhausting them |
| OutboxPublication.RowsAreNeverLost | platform/src/businessos/eventing.py:71-123 | over every run, and whatever follows it, a committed row stays, keeps its event, never becomes unpublished again and never loses attempts |
| OutboxPublication.EveryRowIsAccountedFor | platform/src/businessos/eventing.py:71-90 | in every reachable state a committed row is published and in the stream, or eligible, or held by one open batch whose crash makes it eligible |
| OutboxPublication.EligibleRowGetsPublished | platform/src/businessos/eventing.py:79-123 | while the broker accepts, an eligible row is published, however long the backlog, by k batches as soon as k times the limit exceeds the number of eligible rows ahead of it by age |
| OutboxPublication.OutboxPublisher.PublishBatch | platform/src/businessos/eventing.py:71-123 | one batch records for each picked row what the broker answered, touches no other row, counts the accepted ones, and is a run of the publisher steps |
| EventDelivery.EffectsCommitAtMostOnce | platform/src/businessos/eventing.py:129-144 | over every run of publish, crash, redelivery and concurrent consumption an effect is committed at most once, exactly when its receipt is |
| EventDelivery.ReceiptsAreKept | platform/src/businessos/eventing.py:129-144 | a committed receipt is never undone |
| EventDelivery.NoEventIsLost | platform/src/businessos/eventing.py:71-123 | over every run a published row was accepted by the broker and every other committed row stays reachable for a publisher, whatever crashes |
| EventDelivery.CommittedEventsStay | platform/src/businessos/eventing.py:71-123 | no delivery or publication step loses or alters a committed event |
| EventDelivery.GenuineMessagesAreNotTerminated | platform/src/businessos/event_worker.py:480-523 | a message a publisher sent ends without acknowledgement only if its payload did not decode |
| EventDelivery.OwedWasAdmitted | platform/src/businessos/messages.py:379-400 | a delivery under way goes back to its own admission, has been the same delivery since, and owes exactly who was obligated then |
| EventDelivery.AcknowledgedMeansServed | platform/src/businessos/providers.py:341-366 | an acknowledged message goes back to the delivery that acknowledged it and to that delivery's own admission: the acknowledgement covers exactly everyone obligated then, and each of them has had exactly one effect |
| EventDelivery.OutboxMessageCanBeServed | platform/src/businessos/eventing.py:160-216 | whatever crashed or is under way, an outbox message that is neither acknowledged nor ended and whose payload decodes can be served: with everyone obligated active, the failure of the open deliveries and one more delivery serve each of them exactly once, nobody else, and acknowledge it |
| EventDelivery.TurnsServe | platform/src/businessos/eventing.py:180-216 | an undisturbed delivery leaves exactly the missing receipts, each with one effect |
| EventDelivery.EventConsumer.Consume | platform/src/businessos/eventing.py:180-216 | serves subscribers in order, skips those with receipts, stops at the first error keeping what was committed before, and counts the new ones |
| BusDelivery.AdmissionIsTheBuses | platform/src/businessos/messages.py:379-400 | the delivery protocol admits exactly when the event bus does, for the same subscribers in the same order and the same obligated set |
| ObligationTable.AcknowledgedServesTheTable | platform/src/businessos/event_worker.py:597-631 | an acknowledged message goes back to the delivery that acknowledged it, to its own admission and to its own synchronization: the acknowledgement covers exactly who was obligated in its worker at the admission, among them everyone the shared table then held for the event name, whichever worker wrote the row, and each has had exactly one effect |
| ObligationTable.TableOnlyGrows | platform/src/businessos/event_worker.py:608-622 | rows of the shared table are never removed and never change owner, whichever worker wrote them |
| FencedStorage.LandedPutOvertakes | platform/src/businessos/providers.py:540-574 | over every run none of the puts in flight on a key when another lands there ever lands |
| FencedStorage.TombstoneIsForever | examples/proof_module/src/businessos_proof/module.py:394-424 | from the landing of a record's tombstone on its key is a tombstone in every later state, exactly when no worker that lost its lock is still writing that record |
| FencedStorage.SharedKeyForgets | examples/proof_module/src/businessos_proof/module.py:405-424 | from the landing of a cleanup's write to the shared key on the key never again shows its record, exactly when no worker that lost its lock is still writing that record there |
| FencedStorage.StaysClearExactlyWhenSafe | platform/src/businessos/providers.py:540-574 | in any state a key that does not show a gone record never shows it again exactly when no live or stray writer has it for that key and nothing in flight that shows it there still matches |
| FencedStorage.HeldLockKeepsTombstone | examples/proof_module/src/businessos_proof/module.py:253-310 | a tombstone that landed before any session dropped stays for good, whatever drops later |
| FencedStorage.LostLockResurrects | examples/proof_module/src/businessos_proof/module.py:297-310 | a concrete run in which a worker whose session dropped brings a purged record's content back over its tombstone |
| FencedStorage.GoneIsForever | examples/proof_module/src/businessos_proof/module.py:498-511 | a record that has left the current state never returns to it |
| FencedStorage.FencedObjects.CompareAndReconcile | platform/src/businessos/providers.py:540-574 | one attempt succeeds exactly when it is not refused as conflicting and the version is the expected one; success leaves nothing in flight that could overwrite it |
| FencedStorage.FencedObjects.ReconcileObject | examples/proof_module/src/businessos_proof/module.py:297-310 | with the lock held two attempts are enough however many delayed puts land, not counting attempts the store refuses as conflicting; giving up takes at least seven such refusals |
| AuditChain.AppendedLogVerifies | foundations/audit/src/businessos_audit/module.py:308-366 | whatever the clock reads, appends to a sound log keep it, sort in append order and verify |
| AuditChain.EachSourceOnce | foundations/audit/src/businessos_audit/module.py:313-323 | each source event is projected at most once |
| AuditChain.LastChecksumDeterminesLog | foundations/audit/src/businessos_audit/module.py:401-450 | two clean V3 logs that end in the same checksum are the same log |
| AuditChain.OnlyPrefixesVerify | foundations/audit/src/businessos_audit/module.py:401-450 | rows removed from, reordered in or repeated from a clean V3 log verify exactly when they form a prefix of it |
| AuditChain.AlteredRowsAreReported | foundations/audit/src/businessos_audit/module.py:401-450 | rows altered in place under their stored checksums are reported, and no others |
| AuditChain.AuditLog.Record | foundations/audit/src/businessos_audit/module.py:308-366 | appends one chained row, or returns the row that already projects the source |
| AuditChain.AuditLog.VerifyIntegrity | foundations/audit/src/businessos_audit/module.py:390-450 | the loop reports exactly the suspect rows of the log in order, and valid means none |
| ContributionGate.InFlightIsConserved | platform/src/businessos/activation.py:81-120 | over every run in-flight is the number of open admissions and drained means none |
| ContributionGate.NumbersAreNotReused | platform/src/businessos/activation.py:42-55 | a generation number once spent and gone never names a generation again |
| ContributionGate.QuietDrain | platform/src/businessos/activation.py:122-132 | from a quiet close until the next publish in-flight never rises and inactive means idle |
| ContributionGate.InactiveMeansIdleExactlyWhenQuiet | platform/src/businessos/activation.py:122-132 | inactive is entered only at zero, whatever follows short of a publish, exactly when no drainer woken by an earlier zero is still to resume |
| ContributionGate.OnlyDrainerIsQuiet | platform/src/businessos/activation.py:122-132 | the condition holds whenever no other call is draining the generation |
| ContributionGate.RepublishDefeatsDrainer | platform/src/businessos/activation.py:122-132 | a concrete run in which a republish between wake-up and resumption marks a busy generation inactive |
| ContributionGate.Gate.ReserveGeneration | platform/src/businessos/activation.py:42-55 | reserves a number above every earlier one, unless retired |
| ContributionGate.Gate.PublishGeneration | platform/src/businessos/activation.py:57-63 | activates a known generation of an owner that is not retired |
| ContributionGate.Gate.AdmitMany | platform/src/businessos/activation.py:98-114 | admits a whole set, each generation once however often named, or none of it |
| ContributionGate.Gate.LeaveMany | platform/src/businessos/activation.py:115-120 | leaves every generation entered and sets the event of those now idle |
| ContributionGate.Gate.BeginDrain | platform/src/businessos/activation.py:122-132 | stops admissions; the call is done at once when nothing is in flight |
| ContributionGate.Gate.EndDrain | platform/src/businessos/activation.py:122-132 | a woken drain marks the generation inactive without looking again |
| ContributionGate.Gate.DiscardGeneration | platform/src/businessos/activation.py:134-140 | refuses exactly while work is in flight |
| ContributionGate.Gate.RetireOwner | platform/src/businessos/activation.py:142-148 | refuses exactly while some generation of the owner has work in flight |
| EventBus.BindSucceedsExactlyWhenCompatible | platform/src/businessos/messages.py:411-437 | a binding succeeds exactly when no declaration contradicts an obligation, a handler or another declaration |
| EventBus.BindIsAllOrNothing | platform/src/businessos/messages.py:411-437 | a conflicting binding changes nothing; a compatible one adds exactly what it declares |
| EventBus.RemoveFacts | platform/src/businessos/messages.py:474-495 | removal takes exactly the generation's handlers and turns them into obligations exactly when it was published |
| EventBus.RemoveTypes | platform/src/businessos/messages.py:491-495 | a name keeps its class exactly while it has a handler or an obligation |
| EventBus.ObligationsAreForever | platform/src/businessos/messages.py:319-353 | after every sequence of operations, and whatever follows it, no obligation disappears or changes owner and every handler agrees with it |
| EventBus.ObligatedNameKeepsItsClass | platform/src/businessos/messages.py:319-353 | in every reachable bus an obligated name that has a class keeps it, whatever follows |
| EventBus.WithdrawnSubscription | platform/src/businessos/messages.py:474-495 | withdrawing a subscription never published restores the bus exactly, except, and only then, when the name had obligations but no class |
| EventBus.WithdrawnClassStays | platform/src/businessos/messages.py:474-495 | a concrete run in which a withdrawn subscription leaves its class behind, so that a subscription the bus would have accepted before is refused |
| EventBus.GateAdmitsDelivery | platform/src/businessos/messages.py:389-400 | the generations of an admitted delivery are all active, so the gate takes them at once |
| EventBus.Registry.SubscribeHandler | platform/src/businessos/messages.py:319-353 | registers a handler or names the conflict, with the exact partial effect of a refusal |
| EventBus.Registry.BindDurable | platform/src/businessos/messages.py:411-437 | merges into a copy and installs it only if nothing conflicts |
| EventBus.Registry.RemoveFromClass | platform/src/businessos/messages.py:478-495 | one class's turn of a removal |
| EventBus.Registry.RemoveOwnerGeneration | platform/src/businessos/messages.py:474-495 | the class-by-class loop, in any order, amounts to one removal |
| ResourceOwnership.CheckClaimsDecides | platform/src/businessos/resources.py:367-378 | declarations pass exactly when all are canonical and claim fresh, pairwise distinct names |
| ResourceOwnership.StageIsAllOrNothing | platform/src/businessos/resources.py:362-383 | staging succeeds exactly under those conditions for a staged generation of the right owner, and then claims exactly the declared names |
| ResourceOwnership.ClaimsStayDisjoint | platform/src/businessos/resources.py:351-383 | in every reachable registry no name is both namespace and alias and every alias leads in one hop to a live binding that lists it |
| ResourceOwnership.RemovalUndoesAGeneration | platform/src/businessos/resources.py:532-541 | whatever a fresh generation staged and registered, removing it restores the registry exactly |
| ResourceOwnership.AliasesResolveAlike | platform/src/businessos/resources.py:452-457 | in every reachable registry a namespace and its aliases resolve to the same active owner |
| ResourceOwnership.ApplyConsumesItsOwnValidation | platform/src/businessos/resources.py:198-209 | an operation that goes ahead consumes a validation made earlier in the same transaction and not used since |
| ResourceOwnership.AppliedIsSpent | platform/src/businessos/resources.py:203-209 | without a new validation the operation is refused, whatever happens in between |
| ResourceOwnership.ResourceRegistry.CheckNames | platform/src/businessos/resources.py:367-378 | checks every declared name before any is claimed |
| ResourceOwnership.ResourceRegistry.StageClaims | platform/src/businessos/resources.py:362-383 | claims all declared names or none, with the exact refusal |
| ResourceOwnership.ResourceRegistry.RemoveOwnerGeneration | platform/src/businessos/resources.py:532-541 | takes out a generation's bindings, their aliases, its providers and its coordinator token |
| LegacyMapping.EntriesApply | foundations/data_governance/src/businessos_data_governance/legacy_mapping.py:271-383 | applied entries record their mappings and qualify exactly the unqualified rows of their codes |
| LegacyMapping.QualifiedReferencesAreKept | foundations/data_governance/src/businessos_data_governance/legacy_mapping.py:366-383 | a reference already qualified is never altered, and no existing mapping is |
| LegacyMapping.ApplyIsIdempotent | foundations/data_governance/src/businessos_data_governance/legacy_mapping.py:238-395 | applying the same reviewed file again succeeds and changes nothing |
| LegacyMapping.PreflightPassesExactly | foundations/data_governance/src/businessos_data_governance/legacy_mapping.py:31-165 | after a successful apply the report passes exactly when no row had an unknown code and no code-less row was half qualified |
| LegacyMapping.Governance.ApplyReviewedMapping | foundations/data_governance/src/businessos_data_governance/legacy_mapping.py:238-395 | the transaction commits what the reviewed file says or leaves the database unchanged, with the first problem found |
| LegacyMapping.Governance.ApplyInTransaction | foundations/data_governance/src/businessos_data_governance/legacy_mapping.py:271-383 | the loop checks, records and backfills entry by entry up to the first problem |

## Left out

- SQL text, roles, grants, engines, HTTP and the NATS, S3 and operating system calls: each is an abstract table, stream, conditional-put store or two-queue pipe.
- Payload decoding, strict JSON, envelope headers and worker credentials: one outcome of the envelope check, and a payload that does not decode ends its message for good, as in the program; copies of an ended message may still arrive.
- EventDelivery.EventConsumer.Consume: the loop sees one delivery at a time; rival transactions, waiting on an uncommitted receipt and crashes between any two steps are in the state machine.
- EventDelivery.OutboxMessageCanBeServed: a possibility, not a promise that the broker or the scheduler will let it happen; that the payload decodes is the outcome of the envelope check.
- ObligationTable.AcknowledgedServesTheTable: a synchronization is one step, its commit included; rows another worker commits after it are owed by later deliveries.
- Broker retention: messages are never dropped from the stream.
- PublicationPools: the profile validation query and the registration checks are outcomes of the validation step.
- ExecutionPools: building and validating a replacement, private until its cutover, is part of the rotation step.
- SingletonOrder.OrderIsTopological: dependencies retained only after publication are not ordered, and at most one initializer runs per key and present registration, which stands for the container's flights.
- SingletonOrder.Container.CleanupSingletons: no removal runs beside it; an unfinished initializer ends in one step, in any order; collected cleanup errors and the owners kept only for theirs are not modelled, since they stop nothing.
- SingletonOrder.Container.RemoveSingletonKeys: an initializer of the removed generation ends by failing, since the generation is no longer active; one that had published would have to be closed; collected cleanup errors are left out as above.
- MigrationGraph: discovery of revision files, duplicate ids, branch labels and the comparison with Alembic's own heads.
- MigrationHandshake.ResultsAreTrue: no claim for a child that exited without an outcome, since the poll and the liveness test are separate steps; a database commit is taken to happen or fail as one step, and a phase callback raises nothing but cancellation.
- MigrationHandshake.CancelAfterAuthorization: a cancellation that arrives while the parent is already stopping because the pipe closed can still surface, and then says nothing about the transaction.
- MigrationHistory.HistoryIsAppendOnly: a downgrade that drops the inventory table is excluded; without the table nothing is persisted and the recorded history is gone.
- MigrationHistory: schemas without the manifest columns, lifecycle states and the Alembic steps themselves, which appear as the set of revisions applied afterwards.
- FencedStorage: one tenant; a worker that lost its lock does no more than go on with the key it was writing; erasing prior object versions, generic unfenced puts and the decision record that authorises a cleanup.
- AuditChain: V1 and V2 rows only as part of an older log that already verifies; the canonical JSON form and SHA-256.
- ContributionGate: the single-generation admission, which is the set admission of one.
- EventBus: payload decoding, authorisation and handler invocation.
- ResourceOwnership: fact projections, locator checks and coordinator admission.
- LegacyMapping: the schema of the reviewed file, and the row samples of the report, which do not affect its status.
- Settings, telemetry, logging, the command line, the front end, permissions and feature flags.
