# A verified model of the muduo-im core

muduo-im is an instant-messaging server. This project models the parts of it that keep state with hard
properties and proves those properties for all inputs, all interleavings and all crash points the code
is written for.

| part | files |
|---|---|
| word filter | `LongestSuffix.dfy`, `Automaton.dfy`, `AhoCorasick.dfy`, `Moderation.dfy` |
| saga coordinator and group creation | `Saga.dfy`, `SagaParts.dfy`, `SagaCoordinator.dfy`, `SagaResume.dfy`, `GroupSaga.dfy`, `GroupStart.dfy`, `GroupAlone.dfy` |
| outbox, relays, persister | `Outbox.dfy`, `OutboxOrder.dfy`, `OutboxContent.dfy`, `OutboxTrouble.dfy`, `OutboxProgress.dfy`, `OutboxService.dfy`, `Persister.dfy`, `EndToEnd.dfy` |
| registry, hash ring, client pool | `Registry.dfy`, `Strays.dfy`, `HashRing.dfy`, `Pool.dfy`, `Routing.dfy`, `Discovery.dfy`, `Relocation.dfy` |
| tokens | `Groups.dfy`, `Base64Url.dfy`, `Base64Bits.dfy`, `Base64Loops.dfy`, `Jwt.dfy` |
| chunked upload | `Upload.dfy` |
| edit and recall | `MessageHistory.dfy` |
| cold archive and its cache | `Archive.dfy`, `ArchiveWorker.dfy`, `PartitionCache.dfy` |
| shared helpers | `Options.dfy`, `Bytes.dfy`, `Decimal.dfy`, `Pigeonhole.dfy` |

`dafny verify dfyconfig.toml` checks everything.

How the model is built:

- Code that updates objects is a class with the source's fields; each method is proved against a function of the
  old state or against a step of a transition system. Properties of whole runs are lemmas about those.
- A database is a value that changes only at commits. A crash may fall between any two of them. What the database,
  Kafka, Redis, the file system or the operating system decides is a parameter (`Luck`, `Env` and the like) or an event,
  and the theorems hold for every choice. `std::hash`, HMAC, JSON text and month boundaries are arbitrary functions with the
  stated laws; clocks are parameters.
- `unordered_map` iteration takes any order.
- In transition systems, `Enabled` and `Next` say which atomic step may happen and what it does; `Leads`, `Run` or
  `IsRun` string steps together; `Inv` is what every step keeps.

What came out differently from what the documentation suggests (each has its lemma below):

- A saga that crashes after a committed compensation is resumed in forward direction and may end `done` without the
  undone step (`SagaResume.DoneWithoutItsFirstStep`), exactly if it is loaded after that compensation
  (`SagaResume.DoneButUndoneIff`). For `group_create` this cannot happen, because the foreign key makes the second step
  fail (`GroupSaga.GroupCreateOutcome`).
- `failed` does not mean that the group is gone: a compensation that gets no connection is passed over
  (`GroupSaga.FailedWithGroupLeft`, exact condition in `GroupSaga.FailedLeavesNothingIff`).
- Nothing keeps two processes from executing the same saga. The second commit of a step goes through exactly if it
  changes the progress row (`SagaResume.SecondCommitIff`); for `group_create` that means two groups
  (`GroupSaga.TwoExecutorsTwoGroups`).
- A server that starts while another one relays takes back rows in flight, and a row is then produced twice
  (`OutboxTrouble.TwoOutstandingProduces`). In every run of one relay, failures and restarts included, rows are handed to
  Kafka in the order of their ids exactly if the first row that each batch hands over lies above all handed over before
  (`OutboxOrder.ProducedInOrderIff`). A row that comes back after a refusal or a failed delivery breaks this
  (`OutboxTrouble.ReturnedRowIsOvertaken`, `OutboxTrouble.FailedDeliveryIsOvertaken`).
- A private message whose transaction fails is stored without an outbox row, or not at all, and acknowledged all the
  same (`OutboxExecution.OutboxService.HandlePrivateMessage`); it never reaches Kafka (`Outbox.RowIffTransaction`).
- Gateways that know the same nodes have the same ring, whatever their histories, exactly if no two of those nodes have
  colliding virtual nodes (`HashRing.MembershipDecidesIffCollisionFree`). There is such a hash for every set of nodes that
  fits into 64 bits (`HashRing.SomeHashSeparates`), and none for all names at once (`HashRing.NoHashSeparatesAllNames`).
- A pool can have clients and no ring to ask: an address all of whose places on the ring fall to others that then leave
  keeps its client, but no message reaches it (`Routing.CrowdedOut`). It cannot happen exactly if every address has a
  label whose hash no other address has (`Routing.AlwaysReachableIff`).
- Registering a known instance under another service sends no Removed event to the watchers of the old one
  (`Strays.LeavingIsMissed`, exact condition in `Strays.StreamInSyncIff`). Between `List` and `Watch` a removal can be missed for good
  (`Discovery.RemovalInTheGapIsMissed`, exact condition in `Discovery.BootstrapInSyncIff`). An instance that moves to
  another address leaves its old client in the pool for good (`Relocation.DrainedPoolAgreesIff`).
- `original_body` is the first content except when that was empty (`MessageHistory.OriginalIsFirstContent`).
- Completing an upload twice deletes the merged file (`Upload.SecondCompletionDeletes`). An empty chunk silently drops
  all later ones (`Upload.UploadHandlers.Merge`).
- The month in which the cutoff falls is archived up to the cutoff and then skipped for good, so its rest stays in
  the hot table (`Archive.CutoffInsideAMonth`, exact condition in `Archive.FirstPublicationDecides`). A message with
  timestamp 0 stops all archiving (`ArchiveExecution.ArchiveWorker.ArchiveAll`).

## Model

| member | source | states |
|---|---|---|
| `LongestSuffix.LongestIsMaximal` | src/moderation/AhoCorasick.h:66-75 | the path that the failure links aim at is the longest trie path among all suffixes of what was read |
| `LongestSuffix.LongestAfter` | src/moderation/AhoCorasick.h:94-100 | for a prefix-closed path set, the longest suffix after one more byte depends only on the longest suffix before it |
| `AhoCorasick.AhoCorasick.constructor` | src/moderation/AhoCorasick.h:31-34 | an empty trie with an empty dictionary |
| `AhoCorasick.AhoCorasick.Descend` | src/moderation/AhoCorasick.h:41-50 | the returned node spells the current path plus one byte; an existing child changes nothing, a missing one is appended, and the trie stays a trie |
| `AhoCorasick.AhoCorasick.AddWord` | src/moderation/AhoCorasick.h:36-53 | the dictionary gains exactly this entry, empty words are ignored, every node lists exactly the entries it spells |
| `Automaton.FailIsShallower` | src/moderation/AhoCorasick.h:66-75 | every failure link leads to a strictly shallower node |
| `Automaton.InheritedWords` | src/moderation/AhoCorasick.h:76-82 | own words plus those of the failure node are, as a multiset, all dictionary words that are suffixes of the path |
| `Automaton.FollowFail` | src/moderation/AhoCorasick.h:94-96 | following one failure link does not change which longest path reading the next byte leads to |
| `Automaton.WalkEnds` | src/moderation/AhoCorasick.h:97-100 | where the walk stops, the child map gives the longest path, or only the root is left |
| `Automaton.ShallowAreEnqueued` | src/moderation/AhoCorasick.h:56-86 | when a node is dequeued every node of at most its depth has been enqueued |
| `Automaton.AllEnqueued` | src/moderation/AhoCorasick.h:56-86 | when the queue runs empty every node but the root has been enqueued |
| `Automaton.LinkChild` | src/moderation/AhoCorasick.h:66-83 | linking one child keeps: enqueued nodes are final, the others list only their own entries |
| `AhoCorasick.AhoCorasick.FollowFails` | src/moderation/AhoCorasick.h:66-69 | the loop terminates at the root or at a node with the child, keeps the longest path, and takes no more hops than it loses depth |
| `Automaton.FailTarget` | src/moderation/AhoCorasick.h:66-75 | where the walk ends is the longest proper suffix path of the child, and never the child itself |
| `AhoCorasick.AhoCorasick.FailOf` | src/moderation/AhoCorasick.h:66-75 | the chosen link is the longest path that is a proper suffix of the child's path |
| `AhoCorasick.AhoCorasick.LinkTo` | src/moderation/AhoCorasick.h:65-84 | one child gets its link and its inherited words; edges do not change |
| `AhoCorasick.AhoCorasick.SeedOne` | src/moderation/AhoCorasick.h:59-62 | one child of the root gets the root as its failure link and is enqueued |
| `AhoCorasick.AhoCorasick.Seed` | src/moderation/AhoCorasick.h:57-62 | the root's children start the queue, linked to the root |
| `AhoCorasick.AhoCorasick.Expand` | src/moderation/AhoCorasick.h:63-85 | all children of the dequeued node are linked and enqueued, in any order, keeping depth order |
| `AhoCorasick.AhoCorasick.Build` | src/moderation/AhoCorasick.h:56-86 | terminates, enqueues each non-root node exactly once, and afterwards every link and every word list is right |
| `Automaton.WordsEndHere` | src/moderation/AhoCorasick.h:101-108 | the words listed at the current node are exactly the dictionary words ending here, none longer than the text read |
| `Automaton.FoundOneMore` | src/moderation/AhoCorasick.h:92-109 | reporting one node's words extends "all occurrences ending by i" to i + 1 |
| `AhoCorasick.AhoCorasick.Step` | src/moderation/AhoCorasick.h:93-100 | cur stays the longest suffix of the text read so far that is a trie path |
| `AhoCorasick.AhoCorasick.Report` | src/moderation/AhoCorasick.h:101-108 | after byte i the result is exactly the occurrences ending within i + 1 bytes |
| `AhoCorasick.AhoCorasick.Emit` | src/moderation/AhoCorasick.h:101-108 | one match per listed word, with its right start; the subtraction never underflows |
| `AhoCorasick.AhoCorasick.Search` | src/moderation/AhoCorasick.h:89-111 | the result is, as a multiset, every occurrence of every entry and nothing else, in the order in which they end; at most one failure link per byte of text in total |
| `Moderation.ReportedIffHits` | src/moderation/ContentModerationService.h:60-66 | a category is among the matches exactly if some word of it is a substring of the text |
| `Moderation.DictionaryIs` | src/moderation/ContentModerationService.h:109-121 | an entry is in the dictionary once for each row with this non-empty word and this category; the count is the number of rows that have both |
| `Moderation.HitsByRow` | src/moderation/ContentModerationService.h:51-131 | so after a reload a category is hit exactly if a non-empty word of some row of that category occurs in the text |
| `Moderation.ContentModerationService.Reload` | src/moderation/ContentModerationService.h:99-131 | the new automaton holds each entry as often as the table has usable rows for it, with their count and latest version; a failed query leaves everything in place |
| `Moderation.ContentModerationService.CheckText` | src/moderation/ContentModerationService.h:51-75 | Block exactly if an entry of category ban occurs in the text, Review exactly if none does and one of category review does, else Pass, each with its reason text; matched words are one per occurrence |
| `Saga.NextKeepsInv` | src/server/SagaCoordinator.h:71-289 | every atomic step of any saga, and a crash, keeps log, memory, history and tables consistent |
| `Saga.RunKeepsInv` | src/server/SagaCoordinator.h:102-232 | and so does every run with any number of interleaved sagas, failures, crashes and resumes |
| `Saga.ForwardExactlyOnce` | src/server/SagaCoordinator.h:102-165 | forward commits are steps 0 to current_step - 1, each once, in order; the tables are what replaying all commits gives; done means no step is missing |
| `Saga.ReplayIsRunForward` | src/server/SagaCoordinator.h:112-159 | replaying commits that end with those of one uncompensated saga is running its first steps from the tables the earlier commits left |
| `Saga.TablesAreFirstSteps` | src/server/SagaCoordinator.h:102-165 | for an uncompensated saga that no other saga's commit interrupts, after any crashes and resumes, tables and payload are those it started from after exactly its first current_step steps |
| `SagaParts.InterleavedFirstSteps` | src/server/SagaCoordinator.h:71-165 | after any history, with any other sagas, crashes and resumes interleaved from its beginning on, for any notion of tables that look alike which its own steps follow and the other commits leave alone: an uncompensated saga has the payload, and tables alike, of exactly its first current_step steps run alone, for some choices |
| `SagaParts.AloneRun` | src/server/SagaCoordinator.h:102-165 | every such run keeps a saga as if it were alone |
| `Saga.RollBackRestores` | src/server/SagaCoordinator.h:171-195 | compensating k-1 down to 0 gives back the start state if compensations invert their steps and the payload carries what they need |
| `Saga.FailedSagaRestores` | src/server/SagaCoordinator.h:119-199 | whichever way step k fails, the compensations that follow restore the start state |
| `SagaExecution.FailureLeavesNothing` | src/server/SagaCoordinator.h:102-199 | an execution, fresh or resumed, that fails at step k and whose compensations all commit leaves tables that look as before the saga, and the saga failed |
| `SagaExecution.SagaCoordinator.constructor` | src/server/SagaCoordinator.h:61-67 | starts with an empty log |
| `SagaExecution.SagaCoordinator.Start` | src/server/SagaCoordinator.h:71-98 | one new running row at step 0 exactly if the type is known and the insert works, else id 0 and no change |
| `SagaExecution.SagaCoordinator.TryStep` | src/server/SagaCoordinator.h:118-158 | step, log row and memory commit together exactly if connection, BEGIN, step and commit work; otherwise only the payload in memory changes |
| `SagaExecution.SagaCoordinator.ForwardPhase` | src/server/SagaCoordinator.h:110-159 | the loop is a run; tables are the remaining steps applied in order up to the step that failed |
| `SagaExecution.SagaCoordinator.TryUndo` | src/server/SagaCoordinator.h:172-194 | one compensation counts exactly if it exists, has a connection and does not refuse, and its commit works or BEGIN had failed, so that there was no transaction; otherwise it is passed over |
| `SagaExecution.SagaCoordinator.CompensationPhase` | src/server/SagaCoordinator.h:171-195 | compensations k-1 down to 0; the tables are all of them applied, unless the events show one passed over for a reason this environment gave |
| `SagaExecution.SagaCoordinator.Settle` | src/server/SagaCoordinator.h:267-289 | markDone or markFailed, possibly lost, changes the state field only |
| `SagaExecution.SagaCoordinator.BeginUndo` | src/server/SagaCoordinator.h:167-171 | markCompensating, possibly lost, then compensation starts at the step before the failed one |
| `SagaExecution.SagaCoordinator.UndoAll` | src/server/SagaCoordinator.h:171-198 | the compensations, all applied unless the events show one passed over, then markFailed; a crash needs a process that dies |
| `SagaExecution.SagaCoordinator.GiveUp` | src/server/SagaCoordinator.h:167-199 | everything after a failed step, as a run: all compensations applied unless the events show one passed over |
| `SagaExecution.SagaCoordinator.Conclude` | src/server/SagaCoordinator.h:161-199 | after success the tables stay; after failure they are rolled back unless the events show a compensation passed over |
| `SagaExecution.SagaCoordinator.ExecuteLoaded` | src/server/SagaCoordinator.h:110-199 | what a completed execution did to tables, log and payload |
| `SagaExecution.SagaCoordinator.RecoverOne` | src/server/SagaCoordinator.h:226 | one turn of the recovery loop |
| `SagaExecution.SagaCoordinator.Execute` | src/server/SagaCoordinator.h:102-199 | true exactly if all steps are through, whatever the state column says; fails only at a step the environment stopped, having gone forward to it and back through all compensations unless the events show one passed over; other sagas are untouched |
| `SagaExecution.SagaCoordinator.RecoverIncomplete` | src/server/SagaCoordinator.h:203-232 | every running or compensating saga is executed in turn, each from the world the one before it left; if its marks arrive it ends done or failed; no other row changes; a crash half way is a run too |
| `SagaResume.DoneWithoutItsFirstStep` | src/server/SagaCoordinator.h:235-265 | a concrete run that ends done although step 0 was undone: the reload ignores the state |
| `SagaResume.DoneButUndoneIff` | src/server/SagaCoordinator.h:203-265 | for every run: a done saga has something undone if and only if it was loaded after one of its compensations had committed |
| `SagaResume.CarefulDoneIsComplete` | src/server/SagaCoordinator.h:102-289 | if no markCompensating is lost and the saga is loaded only while its row says running, a done saga has nothing undone and the tables are those after all its steps |
| `SagaResume.SecondCommitIff` | src/server/SagaCoordinator.h:132-157 | after one process committed step k, the commit of the same step by another that loaded the same row goes through if and only if the step does not refuse and leaves a payload other than the one on record: the UPDATE must change the row |
| `GroupSaga.GroupStepsReversible` | src/server/GroupService.h:163-225 | the compensations of group_create invert its steps, so the general restore theorem applies |
| `GroupSaga.RunKeepsGroupInv` | src/server/GroupService.h:123-225 | every run of any number of group creations determines the rows of each from its progress |
| `GroupSaga.GroupCreateOutcome` | src/server/GroupService.h:123-225 | done means group and owner membership exist; no row is left exactly if step 0 never committed or was undone |
| `GroupStart.GroupIsAsRequested` | src/server/GroupService.h:123-225 | in every run: a done group creation has a group with the name and owner of its start, and that owner as a member; started without a name or an owner it never gets past step 0 and leaves no row |
| `GroupSaga.FailedLeavesNothingIff` | src/server/GroupService.h:163-225 | for every run: a failed group_create left no row if and only if its first step never committed or a compensation of it did |
| `GroupSaga.FailedMeansNoRows` | src/server/GroupService.h:123-225 | if no compensation is passed over and a failed saga is not executed again, failed means that neither row exists |
| `GroupSaga.FailedWithGroupLeft` | src/server/GroupService.h:163-225 | a concrete run that ends failed with the group still there: no connection for its deletion |
| `GroupSaga.GroupFailureRestores` | src/server/GroupService.h:163-225 | the general restore theorem for group_create: if every compensation commits, the rows are those from before it |
| `GroupSaga.SecondGroupCommitIff` | src/server/GroupService.h:163-225 | for group_create a second executor commits the first step again exactly if the insert is not refused, and never the second |
| `GroupSaga.TwoExecutorsTwoGroups` | src/server/GroupService.h:163-225 | a run to two groups of which the saga knows only the second |
| `GroupAlone.GroupFollows` | src/server/GroupService.h:163-225 | whatever a step of group_create does in the shared tables, it can do in those of a lone run, with some choice of id, giving the same payload, group and members |
| `GroupAlone.OthersLeaveAlike` | src/server/GroupService.h:163-225 | no commit or compensation of another group creation changes the group or the members of this one |
| `GroupAlone.GroupAsIfAlone` | src/server/GroupService.h:123-225 | in every run of group creations, one that is not compensated has the payload, group and members of exactly its first current_step steps run alone from the tables at its beginning |
| `Outbox.NextKeepsInv` | src/server/OutboxService.h:53-231 | every step of senders, relays, broker and callbacks keeps the invariant |
| `Outbox.RunKeepsInv` | src/server/OutboxService.h:53-231 | so does every run |
| `Outbox.OneOutstandingProduce` | src/server/OutboxService.h:118-177 | with any number of relays a row has at most one outstanding produce, and only in status sending |
| `Outbox.ContentForever` | src/server/OutboxService.h:53-67 | a committed row never disappears and never changes content |
| `Outbox.NoMessageLostOrInvented` | src/server/OutboxService.h:53-231 | a message sent by the transaction and its outbox row exist together for good; sent implies acknowledged and in Kafka; Kafka holds only committed rows |
| `Outbox.RowIffTransaction` | src/server/ChatServer.h:1796-1841 | at any later time a message has an outbox row if and only if its transaction committed; one stored aside is in Kafka in no later world |
| `OutboxContent.KafkaIsAsSent` | src/server/OutboxService.h:53-211 | in every run each entry in Kafka has the topic, key and message of one transaction of the run |
| `OutboxContent.RowIsAsSent` | src/server/OutboxService.h:53-67 | in every run the row of each transaction is there ever after, with its topic, key and message |
| `OutboxContent.SameKeyIffSamePair` | src/server/ChatServer.h:1805-1807 | the conversation keys of two messages are equal if and only if they are between the same two users, in whichever direction |
| `OutboxContent.ConversationsKeepTogether` | src/server/ChatServer.h:1805-1818 | in every run whose transactions are those of the handler: all entries in Kafka are on topic im.messages, two with the same key exactly if they are between the same two users |
| `OutboxContent.RetriesCountFailures` | src/server/OutboxService.h:184-211 | in every run retry_count is the number of refused produces and failed deliveries of the row that reached the database |
| `OutboxContent.BatchIsFirstHundred` | src/server/OutboxService.h:122-126 | the batch is all pending rows in the order of their ids, or the first 100 |
| `OutboxProgress.EveryRowCanBeSent` | src/server/OutboxService.h:77-231 | from every reachable world a restart and then trouble-free drains and deliveries lead to a world in which every row is sent |
| `OutboxProgress.AllGetSent` | src/server/OutboxService.h:118-211 | one relay that meets no trouble sends every row, in finitely many steps |
| `OutboxProgress.SomeStep` | src/server/OutboxService.h:118-211 | unless every row is sent some trouble-free step is possible and brings that nearer |
| `Outbox.ReclaimSafeIffUnheld` | src/server/OutboxService.h:216-231 | taking rows back keeps at most one holder exactly if nobody alive holds one of them |
| `OutboxTrouble.ReclaimedRowGoesTwice` | src/server/OutboxService.h:77-86 | a start that reclaims a row in flight leads to two outstanding produces of it |
| `OutboxTrouble.OneRowInFlight` | src/server/OutboxService.h:118-177 | a run to such a world |
| `OutboxTrouble.TwoOutstandingProduces` | src/server/OutboxService.h:77-177 | together: from the empty world to one row with two outstanding produces |
| `OutboxOrder.ProducedInOrder` | src/server/OutboxService.h:122-176 | in particular: with rows committed in id order and no delivery failing, rows are handed to Kafka in id order, none twice |
| `OutboxOrder.ProducedInOrderIff` | src/server/OutboxService.h:77-231 | for every run of one relay, with failed updates, refused produces, failed deliveries, restarts and rows committed in any order: rows are handed over in id order, none twice, if and only if the first row that each batch hands over lies above all handed over before |
| `OutboxOrder.BatchesInOrderIff` | src/server/OutboxService.h:122-176 | if every update runs and every produce is accepted, they are in order if and only if no batch is selected while a pending row lies behind one already handed over |
| `OutboxOrder.BatchInOrderIff` | src/server/OutboxService.h:122-176 | one batch keeps the order if and only if no pending row lies behind |
| `OutboxExecution.DrainInOrderIff` | src/server/OutboxService.h:118-177 | the same for a drain in which every update runs and every produce is accepted |
| `OutboxTrouble.ReturnedRowIsOvertaken` | src/server/OutboxService.h:163-175 | a refused row is handed over after the row behind it |
| `OutboxTrouble.FailedDeliveryIsOvertaken` | src/server/OutboxService.h:163-211 | a row whose delivery fails is handed over again after the row behind it |
| `OutboxTrouble.TwoRowsClaimed` | src/server/OutboxService.h:118-159 | a run to the world both start from |
| `OutboxExecution.OutboxService.constructor` | src/server/OutboxService.h:38-40 | starts from the empty world |
| `OutboxExecution.OutboxService.SendPrivate` | src/server/ChatServer.h:1796-1828 | message row and outbox row commit together, exactly if every operation works and the id is new, or not at all; the outbox row has this topic, key and message, is pending and was never retried |
| `OutboxExecution.OutboxService.SaveAside` | src/server/MessageService.h:47-76 | stores the message without an outbox row, exactly if the insert works and the id is new |
| `OutboxExecution.OutboxService.HandlePrivateMessage` | src/server/ChatServer.h:1790-1844 | which of the four ways a message takes: transaction, with topic im.messages and the smaller user id before the greater as key; Redis queue; aside; or nowhere although it is acknowledged |
| `OutboxExecution.OutboxService.OnDelivery` | src/server/OutboxService.h:184-211 | sent on success, pending with one more retry on failure, untouched without a database; no other row changes |
| `OutboxExecution.OutboxService.Start` | src/server/OutboxService.h:77-86 | stuck rows go back to pending, whoever else is alive; a step of the model if nobody is |
| `OutboxExecution.OutboxService.ClaimOne` | src/server/OutboxService.h:150-159 | a row is claimed exactly if this update changed it from pending to sending |
| `OutboxExecution.OutboxService.ProduceOne` | src/server/OutboxService.h:164-174 | the row is handed to Kafka or, if refused, treated as a failed delivery |
| `OutboxExecution.OutboxService.ClaimAll` | src/server/OutboxService.h:148-159 | claims exactly the pending rows whose update ran; all others are untouched |
| `OutboxExecution.OutboxService.ProduceAll` | src/server/OutboxService.h:163-175 | each row refused while the database is up goes back to pending, no other changes; the accepted ones are in flight, handed over in order |
| `OutboxExecution.OutboxService.DrainOnce` | src/server/OutboxService.h:118-177 | a run of the model; claims exactly the selected rows whose update ran; hands over the accepted ones in the order of the batch; the new row set in full |
| `Persister.Consumer.constructor` | src/persister/main.cpp:114 | counters start at zero |
| `Persister.Consumer.OnMessage` | src/persister/main.cpp:37-144 | commits exactly after an insert-if-absent that worked or for an unusable value; otherwise nothing changed and the value comes again; counters exactly |
| `Persister.RedeliveryChangesNothing` | src/persister/main.cpp:37-144 | any redeliveries and retries leave the keys, and for unedited rows the contents, of consuming each entry once |
| `Persister.ConsumedOnce` | src/persister/main.cpp:115-144 | a log worked off without edits gives exactly the table of consuming each entry once |
| `Persister.StoredIsNeverOverwritten` | src/persister/main.cpp:37-83 | no delivery changes a row that is already stored |
| `EndToEnd.KafkaRebuildsMessages` | src/persister/main.cpp:37-144 | once every outbox row is sent, consuming topic im.messages with duplicates and retries rebuilds exactly the private messages sent by the transaction, sender, receiver, content and time each, and no message stored aside |
| `HashRing.LabelsAreInjective` | src/gateway/ConsistentHashRing.h:21 | node#i determines node and i, whatever the node name contains |
| `Decimal.DigitAt` | src/gateway/ConsistentHashRing.h:21 | decimal text: counted from the right the k-th character is the digit for 10^k, and there is no leading zero |
| `HashRing.ConsistentHashRing.constructor` | src/gateway/ConsistentHashRing.h:17 | an empty ring |
| `HashRing.ConsistentHashRing.AddNode` | src/gateway/ConsistentHashRing.h:19-24 | the ring with all virtual nodes written in order, collisions included: the hash of node#i maps to the node for every i |
| `HashRing.ConsistentHashRing.RemoveNode` | src/gateway/ConsistentHashRing.h:26-31 | exactly the entries of the node are gone |
| `HashRing.ConsistentHashRing.Get` | src/gateway/ConsistentHashRing.h:35-41 | the node at the least key not below the hash, wrapping to the least key; empty for an empty ring |
| `HashRing.OwnerIsNearest` | src/gateway/ConsistentHashRing.h:35-41 | lookup finds the clockwise nearest key, wrap-around included |
| `HashRing.AddMovesOnlyToNew` | src/gateway/ConsistentHashRing.h:19-24 | for any hash, adding n moves a key only to n |
| `HashRing.RemoveMovesOnlyOwn` | src/gateway/ConsistentHashRing.h:26-31 | for any hash, removing n moves only keys that mapped to n |
| `HashRing.ApplyIsRingOf` | src/gateway/ConsistentHashRing.h:19-31 | if no two of the nodes collide, after any history of them the ring holds exactly the virtual nodes of the live ones |
| `HashRing.MembershipDecidesIffCollisionFree` | src/gateway/ConsistentHashRing.h:19-41 | for every set of nodes: equal membership gives equal rings after all histories of them if and only if no two of them collide |
| `HashRing.DistinctLabelHashesSuffice` | src/gateway/ConsistentHashRing.h:19-41 | a hash that separates the labels of the nodes is enough |
| `HashRing.SomeHashSeparates` | src/gateway/ConsistentHashRing.h:19-24 | there is such a hash for every finite set of nodes whose virtual nodes do not outnumber the 64-bit values |
| `HashRing.NoHashSeparatesAllNames` | src/gateway/ConsistentHashRing.h:19-24 | every hash makes the virtual nodes of some two node names collide |
| `Registry.NextKeepsLeases` | src/registry/RegistryServiceImpl.h:58-111 | lease maps stay inverse, the three instance maps share one key set, no lease lies in the future |
| `Registry.DeadLeaseStaysDead` | src/registry/RegistryServiceImpl.h:58-84 | an issued lease that is gone never comes back |
| `Registry.ScanRemovesExactlyTheSilent` | src/registry/RegistryServiceImpl.h:211-219 | a scan removes an instance exactly if it was last seen 31 s ago or longer |
| `Registry.RegisterSyncExactly` | src/registry/RegistryServiceImpl.h:58-84 | a registration keeps a stream in sync exactly if it does not take an instance out of the watched service |
| `Registry.RemoveSync` | src/registry/RegistryServiceImpl.h:188-200 | a removal keeps every stream in sync |
| `Registry.NextKeepsSync` | src/registry/RegistryServiceImpl.h:58-200 | every step keeps all streams in sync, if ids keep their service |
| `Registry.LeasesAlwaysOk` | src/registry/RegistryServiceImpl.h:58-111 | the lease invariant holds in every state of every run |
| `Registry.StreamsAlwaysInSync` | src/registry/RegistryServiceImpl.h:125-200 | on every unbroken stream, delivered then queued events replay to exactly the current endpoints of its service |
| `Strays.StreamBelieves` | src/registry/RegistryServiceImpl.h:58-200 | in every run, ids keeping their service or not: a client is right about an instance, unless it left the watched service since the stream opened and did not register in it again; then it is still believed to be there |
| `Strays.StreamInSyncIff` | src/registry/RegistryServiceImpl.h:58-200 | an open stream is in sync if and only if no instance left its service like that |
| `Strays.LeavingIsMissed` | src/registry/RegistryServiceImpl.h:58-84 | register, Watch, register under another service: a run to a stream out of sync |
| `Registry.LastSeenIsLastRefresh` | src/registry/RegistryServiceImpl.h:95-111 | lastSeen changes exactly when the instance registers or its live lease is refreshed |
| `Registry.RefreshedIsNeverCollected` | src/registry/RegistryServiceImpl.h:202-222 | an instance that registers and before every scan was refreshed, by registration or live lease, at most 30 s earlier is never collected |
| `Registry.SilentIsCollected` | src/registry/RegistryServiceImpl.h:202-222 | an instance whose every refresh is 31 s old or older is gone after the next scan |
| `Registry.SupersededLeaseIsDead` | src/registry/RegistryServiceImpl.h:58-111 | after re-registration the old lease refreshes nothing, in every later state |
| `Registry.RegistryService.constructor` | src/registry/RegistryServiceImpl.h:38 | an empty registry |
| `Registry.RegistryService.BroadcastEvent` | src/registry/RegistryServiceImpl.h:175-185 | exactly the streams that watch this service or all services get the event, last in their queue |
| `Registry.RegistryService.RegisterEndpoint` | src/registry/RegistryServiceImpl.h:58-84 | the whole new state; the returned lease is new and belongs to the instance |
| `Registry.RegistryService.RemoveInstance` | src/registry/RegistryServiceImpl.h:188-200 | the whole new state, nothing for an unknown id |
| `Registry.RegistryService.Refresh` | src/registry/RegistryServiceImpl.h:95-111 | only lastSeen of the lease's instance changes; an unknown lease is reported |
| `Registry.RegistryService.Collect` | src/registry/RegistryServiceImpl.h:212-218 | lists each expired id once |
| `Registry.RegistryService.Scan` | src/registry/RegistryServiceImpl.h:211-220 | removes exactly the expired ids, in the order found |
| `Registry.RegistryService.StartWatch` | src/registry/RegistryServiceImpl.h:125-142 | the new stream starts with one Added event per endpoint of its service |
| `Registry.RegistryService.WriteNext` | src/registry/RegistryServiceImpl.h:144-157 | the oldest queued event is delivered |
| `Pool.AddKeepsAgreement` | src/gateway/LogicClientPool.h:294-312 | adding an endpoint keeps the five indexes in agreement |
| `Pool.RemoveKeepsAgreement` | src/gateway/LogicClientPool.h:314-334 | so does removing one |
| `Pool.RunKeepsAgreement` | src/gateway/LogicClientPool.h:189-214 | so does every run of endpoint events |
| `Pool.PrimaryHasClient` | src/gateway/LogicClientPool.h:84-104 | the ring's answer always has a client, and is in the local AZ when the AZ ring answered |
| `Routing.RingsAreOfClients` | src/gateway/LogicClientPool.h:294-334 | in every run whose addresses do not collide the global ring holds exactly the 200 virtual nodes of each client, each AZ ring those of the clients tagged with the AZ |
| `Routing.SameClientsSameRoute` | src/gateway/LogicClientPool.h:84-104 | then pools with the same clients and tags ask the same client about a key, whatever their histories |
| `Routing.LocalRingFirst` | src/gateway/LogicClientPool.h:84-98 | asked is the clockwise nearest address on the ring of the local AZ, if that has one, else on the global ring |
| `Routing.CrowdedOut` | src/gateway/LogicClientPool.h:294-334 | a run that leaves a client and an empty ring, for any address all of whose labels collide with others |
| `Routing.AlwaysReachableIff` | src/gateway/LogicClientPool.h:294-334 | the ring is empty only without clients, in all runs over these addresses, if and only if each of them has a label whose hash no other has |
| `Routing.UntriedIffNoClient` | src/gateway/LogicClientPool.h:84-98 | then a message is given up untried if and only if the pool has no client |
| `Pool.LogicClientPool.constructor` | src/gateway/LogicClientPool.h:32-42 | an empty pool |
| `Pool.LogicClientPool.Add` | src/gateway/LogicClientPool.h:294-312 | a new address gets its client and instance, and the hash of each of addr#0 to addr#199 maps to it on the global ring and on that of its AZ; a known address changes nothing |
| `Pool.LogicClientPool.Remove` | src/gateway/LogicClientPool.h:314-334 | the client and the instance go, the address is on no ring any more, all else stays; an unknown id changes nothing |
| `Pool.LogicClientPool.PickPrimary` | src/gateway/LogicClientPool.h:84-105 | the local AZ ring first, the global ring otherwise; fails exactly if neither has a node |
| `Pool.LogicClientPool.PickBackup` | src/gateway/LogicClientPool.h:119-142 | a healthy client other than the failed one, in the local AZ if there is one there; none only if none exists |
| `Pool.LogicClientPool.HandleMessage` | src/gateway/LogicClientPool.h:78-154 | at most two attempts at different addresses; the second exactly after Unavailable or DeadlineExceeded with a healthy other client, in the local AZ if there is one; its answer is the result; other threads may change the pool in between |
| `Discovery.HandleAllTracks` | src/gateway/LogicClientPool.h:189-214 | with stable distinct addresses the pool has one client per known instance after any events |
| `Discovery.DrainedPoolMatchesRegistry` | src/gateway/LogicClientPool.h:189-214 | an initially empty pool that has read its stream to the end has clients for exactly the registered addresses of the service |
| `Discovery.BootstrapInSyncIff` | src/gateway/LogicClientPool.h:172-187 | after List at one state and a stream read to the end at another, the pool has clients for exactly the registered addresses if and only if every listed instance was registered at some time since the stream opened |
| `Discovery.NoRemovalInTheGap` | src/gateway/LogicClientPool.h:172-198 | in particular they agree if every listed instance is still registered when the stream opens |
| `Discovery.StreamMentions` | src/registry/RegistryServiceImpl.h:125-200 | an open stream mentions exactly the instances of its service registered at some time since it opened |
| `Discovery.RemovalInTheGapIsMissed` | src/gateway/LogicClientPool.h:172-198 | register, List, deregister, Watch: the pool keeps a client for an address nobody has |
| `Relocation.DrainedPoolAgreesIff` | src/gateway/LogicClientPool.h:189-214 | if every address belongs to one instance, a pool that has read its stream agrees with the registry on instances, addresses and clients if and only if no delivered event moved a known instance to another address |
| `Relocation.MoveStrands` | src/gateway/LogicClientPool.h:294-302 | a move leaves the old client behind |
| `Relocation.StrandedStays` | src/gateway/LogicClientPool.h:294-334 | and no event ever takes it away |
| `Base64Url.EncoderMasks` | src/common/JWT.h:221-224 | the masks and shifts of the encoder are divisions and remainders |
| `Base64Url.DecoderMasks` | src/common/JWT.h:274-276 | and those of the decoder |
| `Base64Url.ValuesRoundTrip` | src/common/JWT.h:210-288 | regrouping 8-bit into 6-bit values and back loses nothing, tails included |
| `Base64Url.FindIsValueOf` | src/common/JWT.h:263-272 | the string search finds exactly the character's value, or nothing outside the alphabet |
| `Base64Url.EncodedAlphabet` | src/common/JWT.h:210-242 | only the URL-safe alphabet of section 5 of RFC 4648, no padding, length ceil(4n/3) |
| `Base64Url.RoundTrip` | src/common/JWT.h:210-288 | decoding an encoding gives back every byte string |
| `Base64Bits.EncodedChar` | src/common/JWT.h:210-242 | character i of an encoding is the one that the table of section 5 of RFC 4648 has for bits 6i to 6i + 5 of the input |
| `Base64Bits.DecodedOctet` | src/common/JWT.h:255-288 | text of the alphabet, in either variant, decodes to three quarters as many bytes, byte j being bits 8j to 8j + 7 of what the characters stand for |
| `Base64Bits.JunkIsSkipped` | src/common/JWT.h:269-272 | a character outside both variants of the alphabet is skipped |
| `Base64Bits.PaddingEnds` | src/common/JWT.h:268 | everything from the first padding character on is ignored |
| `Base64Loops.EmitChars` | src/common/JWT.h:220-235 | the buffer of one to three bytes, zero-padded, becomes two to four characters |
| `Base64Loops.PushByte` | src/common/JWT.h:218-228 | whole groups are written, the rest waits in the buffer |
| `Base64Loops.FlushBytes` | src/common/JWT.h:229-235 | the one or two bytes left in the buffer complete the text |
| `Base64Loops.Encode` | src/common/JWT.h:210-242 | the loop computes the encoding for which the round trip is proved; each character is that of the table for its six bits |
| `Base64Loops.Translate` | src/common/JWT.h:236-240 | every + becomes - and every / becomes _, nothing else changes |
| `Base64Loops.Pad` | src/common/JWT.h:261 | padding to a multiple of four does not change what is read |
| `Base64Loops.ZeroFill` | src/common/JWT.h:282 | the buffer from position i on becomes zero, the rest stays |
| `Base64Loops.Recombine` | src/common/JWT.h:273-285 | the buffer of one to four values becomes one byte less |
| `Base64Loops.EmitOctets` | src/common/JWT.h:273-286 | those bytes are appended |
| `Base64Loops.PushSextet` | src/common/JWT.h:272-279 | whole groups are written, the rest waits in the buffer |
| `Base64Loops.PushChar` | src/common/JWT.h:269-272 | characters outside the alphabet are skipped |
| `Base64Loops.ReadAll` | src/common/JWT.h:268-280 | reading stops at the first padding character |
| `Base64Loops.Decode` | src/common/JWT.h:255-288 | the loop computes the decoding for which the round trip is proved |
| `Jwt.PartsAreUnique` | src/common/JWT.h:146-152 | a token splits into its parts in only one way, at its first two dots |
| `Jwt.AcceptedIff` | src/common/JWT.h:142-176 | a token in three parts is accepted exactly if the third is the encoded code of the first two with their dot and the second carries unexpired claims of a positive user; no other token is |
| `Jwt.ClaimsAreFields` | src/common/JWT.h:157-164 | the claims read are the fields userId, exp, iat and jti, 0 or empty if missing; nothing is read if one cannot be converted |
| `Jwt.JWT.constructor` | src/common/JWT.h:41 | keeps its secret |
| `Jwt.JWT.GenerateWithJti` | src/common/JWT.h:92-111 | the compact token with header HS256 and JWT and the claims by name, jti only if not empty, signed over both |
| `Jwt.JWT.VerifyAndParse` | src/common/JWT.h:142-176 | accepts exactly the well-signed, unexpired tokens of a positive user, with their claims, whatever the library converts to integers |
| `Jwt.TokenHasTwoDots` | src/common/JWT.h:92-111 | a generated token has exactly two dots |
| `Jwt.ClaimsSurvive` | src/common/JWT.h:92-176 | the claims read back are the claims put in |
| `Jwt.GeneratedTokenAccepted` | src/common/JWT.h:92-176 | accepted under the same secret exactly if it names a positive user, has an expiry and this is not past, with exactly the original claims |
| `Jwt.OtherSecret` | src/common/JWT.h:142-176 | accepted under another secret exactly if, in addition, both secrets give the same code for its message |
| `Upload.NextKeepsInv` | src/server/ChatServer.h:1154-1237 | every interleaved step of chunk handlers, short writes and deaths included, keeps: listed indices are valid, distinct and on disk; a file on disk is a beginning of its slice |
| `Upload.RunKeepsInv` | src/server/ChatServer.h:1154-1237 | so does every interleaving, lost metadata updates included |
| `Upload.FullRunKeepsWhole` | src/server/ChatServer.h:1204-1212 | if handlers write in full and do not die in between, a file on disk is complete unless a handler is about to write it |
| `Upload.UninterruptedHandler` | src/server/ChatServer.h:1154-1237 | a handler that runs alone is a run of that interleaving model |
| `Upload.CountTellsAll` | src/server/ChatServer.h:1306-1309 | the size check passes exactly if every index is listed |
| `Upload.JoinedSlices` | src/server/ChatServer.h:1321-1336 | the first n slices joined are the first n MB of the file |
| `Upload.UploadedFileIsRebuilt` | src/server/ChatServer.h:1277-1337 | after any interleaving of handlers that write in full, with no write under way, completion writes exactly the file or answers that chunks are missing from the list, and the former exactly if all are listed |
| `Upload.RebuiltIffNothingCut` | src/server/ChatServer.h:1204-1336 | a merge that reads each chunk at its own time, while handlers write, die or lose bytes, gives the file exactly if it catches every chunk complete |
| `Upload.SecondCompletionDeletes` | src/server/ChatServer.h:1315-1345 | completing again, marked completed or not, finds chunk 0 missing and removes the merged file |
| `Upload.UploadHandlers.constructor` | src/server/ChatServer.h:1071-1077 | no uploads yet |
| `Upload.UploadHandlers.HandleUploadInit` | src/server/ChatServer.h:1081-1151 | which requests are refused and how; the chunk count covers the size with less than one chunk to spare; the fresh metadata field by field |
| `Upload.UploadHandlers.HandleUploadChunk` | src/server/ChatServer.h:1154-1237 | stored exactly if all checks pass, also if the write lost bytes, else the refusal that the first failed check gives; the chunk file and the metadata afterwards; otherwise nothing changed |
| `Upload.UploadHandlers.Merge` | src/server/ChatServer.h:1315-1336 | all chunks in order up to the first empty one, after which the output stream has failed and takes nothing more; or the first missing one and no file |
| `Upload.UploadHandlers.CleanUp` | src/server/ChatServer.h:1339-1345 | the merged chunks are gone, and the directory with them if it is empty |
| `Upload.UploadHandlers.HandleUploadComplete` | src/server/ChatServer.h:1277-1345 | which requests are refused; the completion step on this upload's files and the completed flag; other uploads untouched |
| `MessageHistory.NextKeepsHistory` | src/server/MessageService.h:302-427 | every transaction keeps the audit rows a chain from the first to the present content |
| `MessageHistory.HistoryIsAChain` | src/server/MessageService.h:302-427 | after every run, for every message: chain, authorship, edit window, and original_body as the first non-empty replaced body |
| `MessageHistory.OriginalIsFirstContent` | src/server/MessageService.h:344-362 | original_body is the first content exactly if that was not empty or only empty bodies were ever replaced |
| `MessageHistory.EmptyFirstContentIsLost` | src/server/MessageService.h:344-362 | sent empty, edited twice: the second version is kept as the original |
| `MessageHistory.RecallFreezes` | src/server/MessageService.h:339-347 | after a recall neither row nor audit trail changes in any run |
| `MessageHistory.RecalledIff` | src/server/MessageService.h:401-427 | after every run a message is recalled if and only if the run has a recall of it by the author of its first sending, after that and less than 120000 ms later |
| `MessageHistory.EditedIff` | src/server/MessageService.h:302-386 | after every run an edit goes through if and only if it is by the author of the first sending, at most 900000 ms later, not recalled by then, and changes the row; then row and audit row are as described column by column |
| `MessageHistory.MessageService.constructor` | src/server/MessageService.h:33 | empty tables |
| `MessageHistory.MessageService.EditMessage` | src/server/MessageService.h:302-386 | succeeds exactly if the caller wrote the message at most 15 minutes ago, it is not recalled, the row changes and every database operation works; then content and audit row change together, otherwise nothing |
| `MessageHistory.MessageService.Mark` | src/server/MessageService.h:408-421 | one conditional update of the recalled flag: the caller is the author, the message is less than 120000 ms old and not recalled yet |
| `MessageHistory.MessageService.RecallMessage` | src/server/MessageService.h:401-427 | recalls the private message if the caller may, else the group message, never both; may: as its author, less than 120000 ms after it was sent, and not recalled yet |
| `Archive.NextKeepsInv` | tools/archive_worker/archive.py:75-171 | every database, storage, failure and crash step keeps the archive invariant for both the committed and the pending state |
| `Archive.RunKeepsInv` | tools/archive_worker/archive.py:75-210 | so does every run |
| `Archive.NothingIsLost` | tools/archive_worker/archive.py:75-171 | at every crash point each message ever stored is in the hot table or in the listed file of its month, and in no other listed file |
| `Archive.ListedFileIsForever` | tools/archive_worker/archive.py:80-89 | a listed partition stays listed and its file is never rewritten |
| `Archive.PartialMonthIsNeverCompleted` | tools/archive_worker/archive.py:86-97 | what a listed month still has in the hot table stays there in every run |
| `Archive.PublishedMonthIsCut` | tools/archive_worker/archive.py:91-153 | when a month is published each of its messages is in the file or left over, exactly as its time lies before or after the end of the range |
| `Archive.FirstPublicationDecides` | tools/archive_worker/archive.py:75-171 | in every later state a message of that month is archived if and only if its time lies before that end; otherwise it is still hot |
| `Archive.CutoffInsideAMonth` | tools/archive_worker/archive.py:91-153 | whenever the cutoff falls between two messages of an unlisted month there is a run that leaves the later one over |
| `ArchiveExecution.MonthsAreInOrder` | tools/archive_worker/archive.py:92-94 | the two ways of stepping to the next month agree, and tuple order is month order |
| `ArchiveExecution.ArchiveWorker.constructor` | tools/archive_worker/archive.py:174-180 | nothing listed yet |
| `ArchiveExecution.ArchiveWorker.Commit` | tools/archive_worker/archive.py:153 | a commit that may fail with or without effect |
| `ArchiveExecution.ArchiveWorker.WriteFile` | tools/archive_worker/archive.py:54-72 | the file holds the rows, or what an unfinished write left; no other file changes |
| `ArchiveExecution.ArchiveWorker.ListFile` | tools/archive_worker/archive.py:139-153 | the index entry becomes verified and is committed, exactly if both operations work |
| `ArchiveExecution.ArchiveWorker.PublishFile` | tools/archive_worker/archive.py:122-154 | upload, index entry and first commit, as a run; nothing but this partition changes |
| `ArchiveExecution.ArchiveWorker.DeleteSource` | tools/archive_worker/archive.py:156-168 | succeeds exactly if all operations work; then exactly the archived range is gone from the hot table and the entry says so |
| `ArchiveExecution.ArchiveWorker.DeleteRows` | tools/archive_worker/archive.py:158-162 | deletes exactly the rows of the range, on this connection |
| `ArchiveExecution.ArchiveWorker.MoveRows` | tools/archive_worker/archive.py:122-171 | succeeds exactly if nothing fails; then every message of the partition below the cutoff is in its listed file and every later one is left over |
| `ArchiveExecution.ArchiveWorker.ArchivePartition` | tools/archive_worker/archive.py:75-171 | skips exactly the listed, future and empty partitions, without effect; otherwise it succeeds if nothing fails, and then every message of the partition below the cutoff is in its listed file and every hot one at or after it is left over |
| `ArchiveExecution.ArchiveWorker.ArchiveMonth` | tools/archive_worker/archive.py:197-202 | each table whose partition meets no failure is settled, whatever happened to the other |
| `ArchiveExecution.ArchiveWorker.OneMoreMonth` | tools/archive_worker/archive.py:196-207 | one turn of the loop extends the settled months by one |
| `ArchiveExecution.ArchiveWorker.ArchiveMonths` | tools/archive_worker/archive.py:192-207 | the loop terminates; every partition from the oldest month to the cutoff month that meets no failure is settled, whatever failed elsewhere |
| `ArchiveExecution.ArchiveWorker.MinTimestamp` | tools/archive_worker/archive.py:183-187 | the least timestamp in the hot table, none if it is empty |
| `ArchiveExecution.ArchiveWorker.ArchiveOld` | tools/archive_worker/archive.py:181-207 | nothing happens if the least timestamp is 0 or missing; otherwise every partition in range that meets no failure is settled |
| `ArchiveExecution.ArchiveWorker.ArchiveAll` | tools/archive_worker/archive.py:174-210 | a message older than the cutoff is archived afterwards if its own partition meets no failure; in a month listed before, exactly if it was archived before; pending work is rolled back at the end |
| `PartitionCache.LeastRecentlyUsed` | tools/archive_worker/query_server.py:45-81 | a partition is among the n newest exactly if it was used and fewer than n others were used since |
| `PartitionCache.TouchedIsNewest` | tools/archive_worker/query_server.py:48-80 | move-to-end on a hit and evict-then-append on a miss keep exactly the n newest |
| `PartitionCache.Cache.constructor` | tools/archive_worker/query_server.py:39-42 | an empty cache of limit 8 |
| `PartitionCache.Cache.ReadPartition` | tools/archive_worker/query_server.py:53-77 | the file's rows exactly if the partition is listed and the file readable |
| `PartitionCache.Cache.Hit` | tools/archive_worker/query_server.py:48-50 | the entry becomes the newest |
| `PartitionCache.Cache.Evict` | tools/archive_worker/query_server.py:77-78 | exactly the oldest entry goes |
| `PartitionCache.Cache.Fill` | tools/archive_worker/query_server.py:77-79 | the new entry is the newest, within the limit |
| `PartitionCache.Cache.LoadPartition` | tools/archive_worker/query_server.py:45-81 | whatever the archiver did since, a returned partition is what its listed file holds now; the cache holds exactly the partitions with fewer than 8 others used since |

## Left out

- HTTP and WebSocket plumbing, routing, metrics, logging, configuration, deployment, the web page, and the friend, device, audit, push, search and presence services: I/O or short CRUD.
- The connection pools, Kafka client, Snowflake ids, thread pool and circuit breaker: they appear only as "may fail", "fresh id" and "healthy".
- The Redis `msg_queue` flush and the push router's transactional mode: they rest on library behaviour that is not part of this model.
- Fixed-width arithmetic: node indices, timestamps, ids and counters are unbounded integers. Hash values are 64-bit.
- SQL is modelled as reads and updates of maps; an UPDATE that changes nothing counts as not affected, and query texts, escaping and error messages are absent.
- Saga.TablesAreFirstSteps: it is about sagas that no other saga's commit interrupts; SagaParts.InterleavedFirstSteps covers the others, and GroupAlone.GroupAsIfAlone applies it to group_create.
- Saga.ForwardExactlyOnce: each saga is driven by at most one executor at a time, which the code does not enforce across servers; SagaResume.SecondCommitIff says what happens otherwise. A commit that is reported as failed is taken not to have happened.
- SagaExecution.SagaCoordinator.TryUndo: a compensation that runs without a transaction and refuses half way is taken to have changed nothing; the compensations of group_create are single statements.
- GroupSaga.GroupCreateOutcome: other writers of the group tables, such as dissolving a group while its saga runs, are not modelled.
- Outbox.OneOutstandingProduce: a restart takes rows back only while no relay is alive; OutboxTrouble.TwoOutstandingProduces shows what goes wrong otherwise. Broker acknowledgements of a dead relay are late stores.
- OutboxOrder.ProducedInOrderIff: it is about the order of the produce calls; what the client library and the broker do with it is not modelled.
- Outbox.RowIffTransaction: messages stored aside stand for all uses of savePrivateMessage, among them files (src/server/ChatServer.h:2073) and the logic service (src/logic/LogicServiceImpl.h:67); the Redis queue and its flush are not modelled. Texts are those at sending; later edits are in MessageHistory.
- OutboxExecution.OutboxService.HandlePrivateMessage: the payload is the message; its JSON fields type and convId are not modelled.
- OutboxExecution.OutboxService.DrainOnce: the batch query is a parameter constrained to the first 100 pending ids in order.
- Persister.Consumer.OnMessage: JSON parsing is reduced to unusable, unknown type or a row; a failing CAST of mentions is a failed write; missing fields take their defaults before the model starts.
- Registry.StreamsAlwaysInSync: reconnecting streams and the List call as such are not modelled; the etcd polling path of the pool neither.
- HashRing: `distinctNodes` is left out.
- Pool.LogicClientPool.HandleMessage: health of a client is a function of its address during the call; the circuit breaker, deadlines and the state after `stop`, where rings outlive clients, are left out.
- Automaton.LinkChild: the word list of a failure node is appended in one step.
- Base64Loops.EmitChars: bytes are integers below 256 and masks are divisions; Base64Url.EncoderMasks and Base64Url.DecoderMasks are the bridge.
- Jwt.JWT.VerifyAndParse: how the JSON library converts fractions and truth values to integers is a parameter; JSON text that cannot be dumped is left out; signatures are compared as strings, and nothing is claimed about cryptographic strength.
- Upload.UploadedFileIsRebuilt: completion runs while no chunk handler is between opening and writing its file, and clients send the slice for the index they name; Upload.RebuiltIffNothingCut covers the other cases but for wrong bytes. The extension whitelist is a parameter; expiry of metadata, failing writes of the merged file and thumbnails are left out.
- MessageHistory.HistoryIsAChain: edit and recall transactions are serial. Two concurrent edits that read the same body would both record it.
- Archive.NothingIsLost: one worker at a time; while it is connected no message older than its cutoff is stored, and none is changed. The worker keeps one transaction open between commits, so under repeatable read its SELECT may miss such a message which its DELETE then removes. Files are sets of rows, so their order, the min/max columns and Parquet itself are absent; the partition key is the month index. Month boundaries are any increasing sequence, so time zones are not modelled.
- PartitionCache.Cache.LoadPartition: the query functions on top of it are left out; readable stands for a `file://` URI whose path exists.
