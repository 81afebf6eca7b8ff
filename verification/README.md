# Vault sync, verified

A Dafny model of the peer-to-peer synchronisation of an Obsidian vault: how devices decide between
versions of a file, how a full sync is planned, pulled and completed, how vaults are compared by Merkle
tree, how transfers are queued, framed, batched and cut into chunks, and how settings and duplicate links
are settled. `dafny verify dfyconfig.toml` checks all of it.

Code that changes fields in place is a class here, with its loops; its methods are proved against
functions, and the promises of the program are lemmas about those functions and about whole runs.

| part | files |
|---|---|
| Versions and conflicts | `Basics`, `Names`, `Versions`, `VersionOrder`, `Replica` (class `Device`), `RoundTrip`, `Draft` |
| Whole runs of one path | `Gossip`, `Convergence` (any number of devices), `PairRun`, `PairTheorems`, `PairSteps`, `PairEdits`, `PairDrain` (two devices) |
| Full sync | `SyncPlan`; `Pull`, `Serve`, `ServeWork`, `Party`, `Session` (class `SyncSession`); `SyncRun`, `SyncLanes`, `SyncTheorems`, `SyncOutcome`, `SyncPaths`, `SyncReplies`, `SyncService` (two devices) |
| Merkle trees | `Merkle`, `MerkleStack`, `MerkleEdits`, `MerkleDirty`, `MerkleRename`, `MerkleTrees` (class `MerkleTree`), `MerkleCache` (class `TreeCache`), `MerkleDiff` (class `TreeDiff`) |
| Transfer queue | `Heaps`, `Queues`, `QueueDrops`, `QueueIds`, `QueueManager` (class `QueueManager`) |
| Wire formats | `Bytes`, `Tlv`, `Frames`, `Chunks` (class `Reassembly`) |
| Settings and links | `ConfigSync`, `ConfigExchange`, `ConfigDevice` (class `ConfigDevice`), `ConfigPair` (two of them), `Links` (class `Connections`) |

## Where the code does other than it says

The model follows the code.

- `newerVersion` is called symmetric (src/utils/versions.ts:88). Both ends answer 'a' when nothing tells
  the versions apart; `SwapSwapsUnlessIndistinguishable` says exactly when. Callers that name both devices never
  meet that case (`NamedDevicesPickAlike`).
- A retry is said to give way to a newer task of the same id (src/core/QueueManager.ts:207-212). The slot of
  that id is freed just before, so the retry joins the queue beside it; a success frees the slot of a newer
  waiting task too, and a third is let in (`RetryJoinsNewer`, `SuccessLetsAnotherIn`). `FireTimer` and `Settle` say
  exactly when the waiting ids stay distinct, and every other public method keeps them so.
- The incremental Merkle update takes the place of a full build (src/main.ts:763-777). The dirty paths include
  folders, and come in the order of their first change; `FoldIsRebuildIff` says exactly for which lists the fold
  is a full build. `FileOverFolderIsLost` and `FolderMadeAgainIsLost` are two that everyday changes produce; with the
  removed paths first neither would be lost (`RemovedPathsFirst`).
- A device is said to leave a sync only once its own word was delivered (src/main.ts:5984-5987). Only `abortSync`
  clears the record of a delivery; a sync that begins with it set can always be left with the word unheard, and one
  that begins without it never (`LeavesUnheardIffStale`).
- Which device plans is not to matter. But a planner goes by its own tolerance (src/settings-tab.ts:360-363), and
  hashes its own files first (src/main.ts:5430-5460): either can let it find two files the same where the other would
  have sent one. `PlansMirrorIff` says exactly when the plans agree, `WhoPlansMatters` and `TolerancesMatter` are plans
  that do not; where every file came with its hash they always do (`HashedPlansMirror`).
- A losing edit is to be kept as a copy where it was made (src/main.ts:4693-4704). A change still in the
  debounce is sent in answer under a vector that does not count it; if the peer's edit was made with all that vector
  counts, the peer takes the answer for an old version. The change is counted after the vectors were merged, and then
  replaces the peer's edit as if made on top of it. `DraftKeepsPeersEditIff` says exactly when, `DraftLosesPeersEdit`
  is such a pair; on the device they were typed on words are never lost (`TypedWordsStay`).
- A sync that was carried out leaves nothing to do, unless the planner took a file that came without a hash, and has
  another vector for it than the sender: the next plan has it sent once more (`ReplanIsEmptyIff`).

## Model

| member | source | states |
|---|---|---|
| `Versions.OrderMeaning` | src/utils/versions.ts:15-38 | The four verdicts on two vectors are exactly: same counts for every device, one includes every edit of the other and more (either way), neither includes the other |
| `Versions.CompareVectors` | src/utils/versions.ts:25-38 | The loop over the devices of both vectors reaches that verdict |
| `Versions.MergeVectors` | src/utils/versions.ts:61-67 | The loop over the devices of both vectors gives the greater count of each |
| `Versions.MergeIsLeastUpperBound` | src/utils/versions.ts:61-67 | The merged vector includes both, and any vector that includes both includes it |
| `VersionOrder.UnseenEditsAreLexicographic` | src/utils/versions.ts:70-72 | Comparing the lowest devices with unseen edits on either side is the same as comparing counts at the lowest device where the vectors differ |
| `Names.LessAtFirstDifference` | src/utils/versions.ts:97-108 | Strings compare by the lower code unit where they first differ, or by the one that ends there |
| `VersionOrder.NewerIsLexicographic` | src/utils/versions.ts:97-108 | For versions with hashes and distinct devices, the newer one is the first in the order (later time, greater count at the lowest differing device, smaller hash, lower device) |
| `VersionOrder.NewerIsStrictTotalOrder` | src/utils/versions.ts:84-108 | On such versions being newer is total, antisymmetric and transitive |
| `VersionOrder.SwapSwapsUnlessIndistinguishable` | src/utils/versions.ts:84-108 | Asked the other way round the rule answers the other way round exactly if the time, the counts, two hashes or two devices tell the versions apart; the comment promises it always |
| `VersionOrder.PickIsNewerUnlessInverted` | src/utils/versions.ts:110-119 | The causal rule and the newer rule agree on a pair exactly if no causally later version has the smaller time |
| `VersionOrder.PickSwaps` | src/utils/versions.ts:110-119 | Both ends pick the same version, exactly if something tells the two apart |
| `VersionOrder.NamedDevicesPickAlike` | src/main.ts:4531-4533 | Versions of two devices that both have names are always told apart: both rules name one winner, whichever end asks |
| `VersionOrder.UnnamedDevicesCanDiffer` | src/main.ts:4526-4533 | Where one device is unknown there are a deletion and a copy of which each end picks its own |
| `VersionOrder.PickCycleIffOuterPairInverted` | src/utils/versions.ts:114-119 | Three versions in a row beat each other in a circle exactly if the clocks contradict the vectors on the outer pair |
| `VersionOrder.PickIsTransitiveWithoutInversion` | src/utils/versions.ts:114-119 | Where no causally later version has a smaller time, picking is transitive |
| `VersionOrder.PickCycleWitness` | src/utils/versions.ts:114-119 | Three versions that beat each other in a circle |
| `Replicas.Device.ApplyFileUpdate` | src/main.ts:4503-4540 | Receiving a version: created, or decided against the file or the tombstone there; the new state, conflict copies and replies are those of `Receive` |
| `Replicas.Device.HandleFileModification` | src/main.ts:4628-4691 | With a change in the debounce every version is a conflict (`WaitingChangeMeets`); otherwise same content merges vectors, a causally later version is taken, an earlier one is answered, the rest is a conflict |
| `Replicas.Device.ResolveConflict` | src/main.ts:4705-4739 | The newer version stays or is taken; a losing edit of this device becomes a conflict copy first; the reply carries the vector from before the merge |
| `Replicas.Device.ReplyWithOurVersion` | src/main.ts:4746-4757 | The reply carries our content and time under the vector given |
| `Replicas.Device.ApplyFileDelete` | src/main.ts:4928-4990 | A deletion: recorded, refused with our version sent back, or applied |
| `Replicas.Device.RecordLocalEdit` | src/main.ts:1591-1599 | A local change is counted in this device's own entry, and in no other |
| `Replicas.EditVersusDeleteAgrees` | src/main.ts:4517-4540 | A file edited on one device and deleted on another: both keep the file or both lose it, with the same counts and tombstone |
| `Drafts.WaitingChangeMeets` | src/main.ts:4649-4739 | A version that meets a change still in the debounce, same content or not, replaces it exactly if it is the newer, after the words were saved as a copy; otherwise its sender gets the words, under the vector from before |
| `Drafts.TypedWordsStay` | src/main.ts:4649-4653 | In every run of one device, whatever arrives, words once typed stay in the file, a copy or the trash until they are typed over; unless a version arrives that counts later edits of this device, or the same words had come from elsewhere |
| `Drafts.DraftKeepsPeersEditIff` | src/main.ts:4693-4734 | An edit of the peer that loses against a change in the debounce is kept by the peer as a copy exactly if this device had a counted edit that the peer's version did not include |
| `Drafts.DraftLosesPeersEdit` | src/main.ts:4693-4734 | Two devices with one version, an edit on the one and a later change in the debounce of the other: the edit is gone |
| `RoundTrips.RoundTripAgrees` | src/main.ts:4503-4990 | One device tells another what it has, a file or a deletion, and hears the answer: then both have the same content, from one of the two, or none, whatever each had and had seen |
| `RoundTrips.DeletionsMeet` | src/main.ts:4941-4951 | Deleted on both: the one that hears the other keeps its own time of deletion, if it has one |
| `RoundTrips.DeletionHeardTwice` | src/main.ts:4941-4951 | A deletion heard again changes nothing and is not answered, once the file is gone |
| `RoundTrips.UndatedDeletion` | src/main.ts:4953-4966 | A deletion without a time takes the file, unless the file counts all that it counts and more; then the file is sent back |
| `Gossip.ReceiveHoldsLatest` | src/main.ts:4628-4739 | Handling any message leaves the latest edit among those either side counts, and counts exactly what either counts |
| `Gossip.EditKeepsInv` | src/main.ts:1591-1599 | An edit later than the version it replaces keeps every device and message at the latest edit it counts |
| `Gossip.DeliverKeepsInv` | src/main.ts:4628-4757 | Any delivery, in any order and any number of times, and its reply, keep that too |
| `Gossip.RunKeepsInv` | src/main.ts:4628-4757 | In every run of any number of devices, with messages reordered, duplicated and lost, each device and message holds exactly the latest edit its vector counts |
| `Convergence.EqualVectorsEqualContent` | src/utils/versions.ts:9-11 | In every reachable state, devices with equal vectors hold the same version |
| `Convergence.EqualVectorsEqualMessage` | src/utils/versions.ts:9-11 | A message with a device's vector carries that device's version |
| `Convergence.TimesNeverGoBack` | src/main.ts:4628-4691 | In every run the time of the version a device holds never goes back |
| `Convergence.GatherAndScatterConverges` | src/main.ts:4628-4757 | From every reachable state: once one device has heard from every other and answered, all hold the newest edit of the run |
| `PairTheorems.OwnEditIsNeverReplacedSilently` | src/main.ts:4712-4739 | A delivery replaces a device's own edit only by a version made on top of it, or after saving it as a conflict copy |
| `PairEdits.ActKeepsInv` | src/main.ts:4663-4757 | Every edit, delivery and reply of two devices on first-in-first-out links keeps the order in which edits reach the other side, and each own edit defended |
| `PairEdits.NoOwnEditReplacedSilently` | src/main.ts:4693-4704 | In every run of the two devices, no delivery replaces an own edit silently |
| `PairEdits.NoEditIsLost` | src/main.ts:4693-4704 | In every reachable state, every edit ever made is an ancestor of its author's version or of a conflict copy |
| `PairEdits.HeadCanBeReceived` | src/main.ts:4746-4757 | Whatever is at the head of a link can be delivered |
| `PairEdits.DrainedLinksAgree` | src/main.ts:4663-4757 | Once both links are empty, both devices hold the same version |
| `PairDrains.ReceiveLeavesLess` | src/main.ts:4663-4757 | A delivery leaves less to be said on the two links: a reply is always later than what it answers |
| `PairDrains.DeliveriesEnd` | src/main.ts:4663-4757 | In every run, deliveries that follow each other without an edit are no more than what was left to be said |
| `PairDrains.CanBeDrained` | src/main.ts:4663-4757 | Every run goes on, by deliveries alone, to a state in which both links are empty and both devices hold the same version |
| `Pulls.SkipKeeps` | src/main.ts:5896-5902 | Passing over entries that are not to be requested loses none that is |
| `Pulls.FillBatch` | src/main.ts:5912-5931 | A batch asks for at least one path, each once, all of them now in flight; the other batches are as they were |
| `Pulls.RequestAllKeeps` | src/main.ts:5882-5941 | Requesting keeps what is in flight the disjoint union of the active batches, keeps every other wanted path at or after the cursor, and leaves an active batch if anything is wanted |
| `Pulls.SettledKeeps` | src/main.ts:5787-5866 | A batch-complete keeps the in-flight union and the cursor invariant, and each of its paths has fewer requests left |
| `Pulls.WeightFollowsSlots` | src/main.ts:5819-5829 | The sum over wanted paths of four minus retries falls whenever one path has fewer requests left |
| `Pulls.FillIsSized` | src/main.ts:5912-5927 | A batch keeps to the limits on files and bytes, a single path excepted, and ends only where the next path would break them or nothing is left |
| `Pulls.RequestsAreSized` | src/main.ts:5882-5941 | Every batch requested keeps to them, no more batches are active than allowed, and asking ends only with as many or with everything wanted in flight |
| `Pulls.AdaptingLimits` | src/main.ts:5846-5861 | The limits stay in bounds; a batch of which nothing came halves them, only one that came fast raises them |
| `Serves.TaskEndKeeps` | src/main.ts:5663-5692 | A task that ends is counted once; its batch is answered exactly when nothing of it is outstanding, with two lists that divide what was asked; no path succeeds twice |
| `Serves.ServeKeeps` | src/main.ts:5694-5772 | Serving a request divides its paths among tasks and rejections, takes only allowed paths, and answers at once only what is already counted in full |
| `ServeWorks.ServeIsExact` | src/main.ts:5694-5772 | Of distinct paths asked for, those that are allowed and in the vault are in one task, once, and no longer allowed; the rest is counted as failed, in order; and if that is all, it is answered at once |
| `ServeWorks.TasksFit` | src/main.ts:5714-5766 | A task is of small files that fit the limit on bytes together, or of one path |
| `Parties.SettledOnce` | src/main.ts:5787-5797 | A batch-complete heard again, or for a batch never asked for, changes nothing |
| `Parties.WhoLeftIsDeaf` | src/main.ts:5694-5697 | Nothing moves a side that has left but the acknowledgement of its own word |
| `Sessions.SyncSession.constructor` | src/main.ts:5530-5536 | The state in which both sides have their share of the plan |
| `Sessions.SyncSession.HandleFullSyncComplete` | src/main.ts:5997-6023 | Leaving clears the session, except for the delivered flag |
| `Sessions.SyncSession.CheckFullSyncCompletion` | src/main.ts:5970-5995 | Full-sync-complete is said once, when nothing is wanted; the side leaves once both have said so, its word was delivered and it serves nothing |
| `Sessions.SyncSession.HandleDelivered` | src/main.ts:5978-5982 | What the delivery of our own word does |
| `Sessions.SyncSession.HandleSyncCompleteMessage` | src/main.ts:3366-3372 | What the peer's word does: nothing is allowed any more |
| `Sessions.SyncSession.SkipIneligible` | src/main.ts:5896-5902 | The inner loop leaves the cursor where `Skip` does |
| `Sessions.SyncSession.TakeBatch` | src/main.ts:5912-5927 | The inner loop takes the paths `Fill` does and puts them in flight |
| `Sessions.SyncSession.RequestNextBatch` | src/main.ts:5882-5941 | The whole loop sends the requests, moves the cursor and checks for completion as `RequestNext` says |
| `Sessions.SyncSession.HandleBatchComplete` | src/main.ts:5787-5866 | Received paths are done, failed ones go to the end of the order or are given up after three retries, limits adapt, and more is requested |
| `Sessions.SyncSession.RecordBatchTaskCompletion` | src/main.ts:5663-5692 | Counting an ended task, reauthorising failed paths, answering a finished batch |
| `Sessions.SyncSession.HandleRequestBatch` | src/main.ts:5694-5772 | The loop over requested paths packs, queues, rejects and answers as `OnRequest` says, in that order |
| `SyncTheorems.CheckRestores` | src/main.ts:5970-5995 | The check of completion restores what every step keeps: who is settled has said so, who is finished has left |
| `SyncTheorems.NextKeeps` | src/main.ts:5663-6023 | Every event of a two-device sync keeps: each active batch is in one place, the words under way agree with the flags, a side that wants something has asked |
| `SyncOutcomes.SyncKeepsInv` | src/main.ts:5663-6023 | What every event keeps holds in every reachable state from installed plans |
| `SyncOutcomes.LeftMeansSettled` | src/main.ts:5970-5995 | When a side has left, neither wants anything, nothing is under way or served either way, and each has said full-sync-complete exactly once |
| `SyncOutcomes.LeavesOnlyWhenSettled` | src/main.ts:5984-5994 | The event that makes a side leave finds its own pulls settled and the other's already empty |
| `SyncOutcomes.OwnWordHeardBeforeLeaving` | src/main.ts:5984-5994 | In runs that begin with the delivered flag clear, a side leaves only after the peer has heard its word |
| `SyncOutcomes.LeavesUnheardIffStale` | src/main.ts:5984-6023 | From any installed plans: a run in which a side has left while its word is still unheard exists exactly if that side began with the delivered flag set |
| `SyncOutcomes.NextRanksBelow` | src/main.ts:5787-5866 | Every event lowers a well-founded rank: requests left for wanted paths, starts, requests, tasks, words |
| `SyncOutcomes.NoEndlessRun` | src/main.ts:5663-6023 | No endless sequence of events is a run: some step of it is not one |
| `SyncOutcomes.CanAlwaysEnd` | src/main.ts:5663-6023 | From every reachable state some run leads to a state in which both sides have left |
| `SyncOutcomes.NotStuck` | src/main.ts:5970-5995 | While a side is still syncing some event is possible |
| `SyncPaths.AtMostFourRequests` | src/main.ts:5819-5830 | In every run a path is asked for at most four times, the request under way included |
| `SyncPaths.LeftMeansAccounted` | src/main.ts:5809-5844 | When a side has left, every planned path of either was received or failed four times |
| `SyncReplies.EachRequestAnsweredOnce` | src/main.ts:5663-5772 | In every run, over all batch-completes sent so far: one for each request taken up and no longer served, no other, and its two lists divide that request's paths |
| `SyncReplies.LeftMeansAnswered` | src/main.ts:5663-5692 | When a side has left, every request taken up on either has had its one batch-complete |
| `SyncPaths.NeverDeliveredTwice` | src/main.ts:5724-5758 | In every run a path is sent successfully once at most, and only if planned |
| `SyncServices.FailuresHaveCauses` | src/main.ts:5663-5772 | In every run a path fails at most as often as a task with it failed or it was not in the vault when asked for: a planned path is never refused |
| `SyncServices.LeftMeansReceived` | src/main.ts:5663-5995 | When a side has left, every planned path with at most three such causes was received |
| `SyncServices.NeverGivenUp` | src/main.ts:5819-5844 | Before that such a path is still wanted, or received |
| `SyncServices.NothingFailsWithoutCause` | src/main.ts:5663-5995 | If every task succeeds and what is asked for is there, all that either side planned is received |
| `SyncServices.HeardMeansForbidden` | src/main.ts:3366-3372 | In every reachable state, a side that has heard that the other will request nothing more allows nothing any more |
| `SyncPlans.MakePlan` | src/main.ts:5462-5515 | Each of the four lists holds exactly the paths of its verdict, each once; each path sent has its size noted, each deletion its time and vector; the warning is given exactly if a file on one side only is older than deletions are remembered |
| `SyncPlans.ListsByWinner` | src/main.ts:5487-5511 | A file is on a list to be sent exactly if the other side has nothing there or it wins, a deletion is carried out exactly if it wins: made with the other in hand, or, if neither was, later |
| `SyncPlans.PlanLeavesTheWinner` | src/main.ts:5430-5511 | Once a plan is carried out both have the kind, time and size of the winner, or the file that only one had; folders, pairs of deletions and files found the same are as they were |
| `SyncPlans.WhatIsTakenSame` | src/main.ts:5489-5496 | Two hashes alone decide; without them the same counts and size and nearly the same time do |
| `SyncPlans.WhatIsFoundEqual` | src/main.ts:5430-5460 | The planner's own hashing finds only files equal that came without a hash, have the other's size and its content |
| `SyncPlans.ListsAreDisjoint` | src/main.ts:5462-5511 | No path is on two lists |
| `SyncPlans.VerdictMirrors` | src/main.ts:5487-5509 | Had the other device planned from the same entries, with its own tolerance, a path would get the mirrored verdict exactly if both take the two files to be the same or neither does |
| `SyncPlans.PlanMirrors` | src/main.ts:5462-5511 | The plans either device would make of the same manifests, each with its own tolerance, mirror each other exactly if that holds at every path |
| `SyncPlans.VerdictsMirrorIff` | src/main.ts:5430-5509 | With each planner hashing its own file first, under its own tolerance, the verdicts of the two mirror each other at a path exactly if both find the two files to be the same or neither does: within the tolerance or by hash, the planner's own included |
| `SyncPlans.PlansMirrorIff` | src/main.ts:5430-5511 | The four lists of the two planners mirror each other exactly if that holds at every path |
| `SyncPlans.OneToleranceMirrorsIff` | src/main.ts:5430-5509 | With one tolerance for both the verdicts mirror each other exactly if neither planner finds by its own hashing that its file is the other's |
| `SyncPlans.HashedPlansMirror` | src/main.ts:5430-5511 | Where every file came with its hash the plans mirror each other, whatever the two tolerances |
| `SyncPlans.PrehashingChangesNothing` | src/main.ts:5430-5460 | Where every file came with a hash, the planner's own hashing changes nothing |
| `SyncPlans.WhoPlansMatters` | src/main.ts:5430-5460 | Without hashes it can matter which device plans |
| `SyncPlans.TolerancesMatter` | src/settings-tab.ts:360-363 | So it can where the two tolerances differ, with nothing found by hashing under any tolerance |
| `SyncPlans.TakerReplansIff` | src/main.ts:4824-4834 | A device that took a file lets it be when it plans again exactly if the file came with a hash or its vector for it is the sender's |
| `SyncPlans.GiverReplans` | src/main.ts:5430-5460 | The device that sent a file, hashing first, lets it be when it plans again, whatever vector the other made |
| `SyncPlans.MergedIsEqualIff` | src/main.ts:4663-4739 | A merged vector is the sender's exactly if the sender's included what was merged into it |
| `SyncPlans.ReplanIsEmptyIff` | src/main.ts:5430-5511 | Once a plan was carried out, under whatever vectors, planning again finds nothing to do exactly if the planner took no file that came without a hash under a vector other than the sender's |
| `SyncPlans.ReplanIsEmpty` | src/main.ts:5462-5511 | Where the other side's files came with their hashes, planning again finds nothing to do |
| `Merkle.RehashedIsHashed` | src/core/sync/MerkleManager.ts:144-170 | Hashing leaves every node with children the digest of their hashes in name order, and leaves alone |
| `Merkle.HashedIsUnique` | src/core/sync/MerkleManager.ts:151-156 | Two trees hashed that way with the same nodes and leaf hashes are equal at every node |
| `Merkle.BuiltIffRepresents` | src/core/sync/MerkleManager.ts:123-170 | A full build is the one hashed tree whose nodes are the files and their folders, with the files' hashes at the leaves |
| `MerkleRename.RenameKeepsRoot` | src/main.ts:724-741 | Names are not hashed: any file renamed within its folder to a name that stands where the old one stood leaves every other node its hash, the root included |
| `MerkleStack.ProcessedAfterChildren` | src/core/sync/MerkleManager.ts:149-157 | A node is processed when all its children are done |
| `MerkleStack.OpenKeeps` | src/core/sync/MerkleManager.ts:158-165 | Opening a node, with its children pushed once each in any order, keeps the stack well ordered |
| `MerkleStack.ProcessKeeps` | src/core/sync/MerkleManager.ts:149-157 | Processing a node keeps it too |
| `MerkleStack.EmptyMeansDone` | src/core/sync/MerkleManager.ts:148-167 | When the stack is empty every node has been done |
| `MerkleTrees.MerkleTree.SetLeaf` | src/main.ts:703-713 | Walking down to a path makes the missing folders and sets the leaf, changing nothing else |
| `MerkleTrees.MerkleTree.PushChildren` | src/main.ts:731-735 | Every child is pushed once, in any order |
| `MerkleTrees.MerkleTree.ComputeHashes` | src/main.ts:716-741 | The explicit stack ends, and gives every node the hash of the recursive definition |
| `MerkleTrees.MerkleTree.Build` | src/main.ts:690-745 | A full build gives the tree of the vault, in whatever order its files are listed |
| `MerkleTrees.MerkleTree.RecomputeAncestors` | src/main.ts:878-893 | The folders above a path are rehashed, deepest first |
| `MerkleTrees.MerkleTree.UpdateLeaf` | src/main.ts:835-854 | The leaf is set, missing folders are made, and the folders above are rehashed, which is what `UpdateIsRebuildIffLeaf` compares with a full build |
| `MerkleTrees.MerkleTree.RemoveLeaf` | src/main.ts:857-875 | The node is cut off with whatever folders that empties, and the folders above are rehashed, which is what `RemovalIsRebuildIffNotFolder` compares with a full build |
| `MerkleTrees.MerkleTree.ApplyDirtyPaths` | src/main.ts:808-830 | Each changed path is set to what the vault now holds there, or removed, in the order the paths come |
| `MerkleTrees.MerkleTree.BringUpToDate` | src/main.ts:763-777 | A tree of the vault as it was, told of what changed, is the tree of the vault as it is exactly if the paths came in a right order |
| `MerkleEdits.RefreshedIs` | src/main.ts:878-893 | Only ancestors change, and each then has the hash its children call for |
| `MerkleEdits.UpdateIsRebuildIffLeaf` | src/main.ts:832-854 | Setting a leaf in place equals a full build exactly if nothing lies below it, or its hash happens to be theirs |
| `MerkleEdits.RemovalRebuildsOutside` | src/main.ts:856-875 | Removing any path in place equals a full build of the vault without that path and without all that is inside it |
| `MerkleEdits.RemovalIsRebuildIffNotFolder` | src/main.ts:856-875 | Removing a path in place equals a full build without that path exactly if it is not a folder with something in it |
| `MerkleDirty.FoldIsRebuildIff` | src/main.ts:808-830 | For any list of distinct paths that covers every change, folders or not: the fold equals a full build exactly if each live file inside a listed path is listed after it, and before a listed file every old file inside it is listed, or a folder around that |
| `MerkleDirty.AnyOrderWithoutFolders` | src/main.ts:805-830 | Where no listed path is a folder before or after, the fold equals a full build in any order |
| `MerkleDirty.RemovedPathsFirst` | src/main.ts:808-830 | With the removed paths before the others the fold equals a full build exactly if every live file inside a listed path is listed |
| `MerkleDirty.FolderMadeAgainIsLost` | src/main.ts:795-803 | A folder deleted and made again with its file: the file keeps its older place in the set, and the fold cuts it off |
| `MerkleDirty.NewFolderIsRight` | src/main.ts:461-463 | A new folder and then its first file are folded in rightly |
| `MerkleDirty.FileOverFolderIsLost` | src/main.ts:808-830 | A file that replaced a folder is lost from the tree when it is folded in first |
| `MerkleCaches.TreeCache.Invalidate` | src/main.ts:795-803 | After any announced change the cached tree is not current, or differs from the vault at the dirty paths only; a path keeps the place at which it first came |
| `MerkleCaches.TreeCache.FinishBuild` | src/main.ts:742-749 | A tree is current after a build exactly if nothing was announced while it ran |
| `MerkleCaches.TreeCache.GetCurrent` | src/main.ts:759-776 | What is served from the cache is the tree of the vault as it is exactly if the dirty paths came in a right order; it counts as current either way |
| `MerkleDiff.TreeDiff.CollectPaths` | src/core/sync/MerkleManager.ts:261-270 | Every file at or below a node goes on the list once |
| `MerkleDiff.TreeDiff.Walk` | src/core/sync/MerkleManager.ts:208-255 | Below any node, each list gains exactly its files, each once |
| `MerkleDiff.TreeDiff.DiffTrees` | src/core/sync/MerkleManager.ts:192-259 | If equal non-empty hashes mean equal leaves below, the four lists are exactly the files in both with equal hashes, in both with different ones, only here, only there; each once |
| `MerkleDiff.WantedBoth` | src/core/sync/MerkleManager.ts:228-254 | At a node in both trees what is to be listed is the node itself, perhaps, and what lies below the children either has |
| `Heaps.SiftUpStep` | src/core/QueueManager.ts:66-77 | An exchange on the way up leaves heap order broken one level higher at most |
| `Heaps.SiftDownStep` | src/core/QueueManager.ts:79-99 | An exchange on the way down leaves it broken one level lower at most |
| `Heaps.PushedQueue` | src/core/QueueManager.ts:66-77 | Pushing puts the item at its place in the queue |
| `Heaps.QueueByPriority` | src/core/QueueManager.ts:60-64 | In the queue a higher priority comes before a lower one, and of one priority the item accepted earlier |
| `Heaps.PoppedQueue` | src/core/QueueManager.ts:79-99 | Popping takes the head of the queue and leaves its tail |
| `Heaps.OrderIsUnique` | src/core/QueueManager.ts:60-64 | The waiting items have one order only |
| `QueueDrops.DroppingKeepsOrderIff` | src/core/QueueManager.ts:133-142 | Dropping a peer's items keeps every heap with those items at those places in order exactly if each kept item's new parent was above it before |
| `QueueDrops.DroppingTheEndKeepsOrder` | src/core/QueueManager.ts:133-142 | So it does where the peer's items are the last of the array |
| `QueueDrops.DroppingBreaksOrder` | src/core/QueueManager.ts:133-142 | A heap that is out of order once a peer's items are dropped |
| `QueueIds.ReturningTidy` | src/core/QueueManager.ts:198-214 | An item that returns with an id that waits leaves the ids and the waiting items in step exactly if no item of that id is left waiting |
| `QueueIds.FreeingTidy` | src/core/QueueManager.ts:193-200 | Freeing an id leaves them in step exactly if no item of that id is left waiting |
| `QueueIds.StartingKeepsTidy` | src/core/QueueManager.ts:175-191 | Starting items keeps the waiting ids distinct, and exactly those held |
| `QueueManagers.QueueManager.HeapPush` | src/core/QueueManager.ts:66-77 | The items are those there were and the new one, and heap order is kept |
| `QueueManagers.QueueManager.HeapPop` | src/core/QueueManager.ts:79-99 | The first item is taken, all others stay, and heap order is kept; in heap order none had a higher priority than it, nor the same and an earlier number |
| `QueueManagers.QueueManager.AddToQueue` | src/core/QueueManager.ts:154-168 | An id that waits is refused; a new item joins the queue at its place |
| `QueueManagers.QueueManager.ProcessQueue` | src/core/QueueManager.ts:175-191 | The head of the queue is started while fewer than the limit are active, so equal priorities drain in order; the count is the number of items being processed; none that still waits has a higher priority than one started, nor the same and an earlier number |
| `QueueManagers.QueueManager.Settle` | src/core/QueueManager.ts:193-240 | A failed item waits for its timer, at most three times; anything else is finished with, and its id freed; that leaves the ids in step exactly if no newer item of that id is left waiting |
| `QueueManagers.QueueManager.FireTimer` | src/core/QueueManager.ts:198-214 | A retried item returns at its old place unless the queue was cleared or disposed; the waiting ids stay distinct exactly if none of its id waited or none is left after the starts |
| `QueueManagers.QueueManager.Clear` | src/core/QueueManager.ts:117-125 | Nothing waits, and no timer set before can bring anything back |
| `QueueManagers.QueueManager.ClearForPeer` | src/core/QueueManager.ts:133-142 | Only that peer's items are dropped, and no timer set before brings anything back, whoever its item is for; heap order is kept under the condition of `DroppingKeepsOrderIff` |
| `QueueManagers.QueueManager.Dispose` | src/core/QueueManager.ts:149-152 | Nothing waits and nothing more is started |
| `QueueManagers.QueueManager.LoadQueue` | src/core/QueueManager.ts:251-265 | The first item of each id, and every item without one, in drain order, with distinct ids held |
| `QueueManagers.QueueManager.StartedAtMostFourTimes` | src/core/QueueManager.ts:198-237 | An item accepted with no retries is handed to the processor four times at most |
| `QueueManagers.QueueManager.WhatWaits` | src/core/QueueManager.ts:117-125 | A refused id waits in the queue; all that waits was accepted since the queue was last cleared |
| `QueueManagers.RetryJoinsNewer` | src/core/QueueManager.ts:198-214 | Calls that end with a retried item waiting beside a newer one of its id |
| `QueueManagers.SuccessLetsAnotherIn` | src/core/QueueManager.ts:175-200 | Calls that end with two waiting items of one id because a success freed the id of the first |
| `Tlv.ParseIffEncoding` | src/utils/index.ts:491-560 | A byte string parses exactly if it is, whole, the encoding of a batch whose lengths fit, and then as that batch |
| `Tlv.RoundTripIffFits` | src/utils/index.ts:435-560 | Packing and parsing gives the batch back exactly if every path is under 2^16 bytes and every content under 2^32 |
| `Tlv.FilesRoundTrip` | src/utils/index.ts:435-560 | The files come back with path, time, flags and content |
| `Tlv.PackFilesToTLV` | src/utils/index.ts:435-474 | The loops fill one buffer of exactly the size needed with the encoding |
| `Tlv.UnpackTLVToFiles` | src/utils/index.ts:491-560 | The loop ends on every byte string with the whole batch or an error, and reads nothing beyond the end |
| `Tlv.UnpackOne` | src/utils/index.ts:502-556 | One file: an error if any field runs past the end |
| `ByteStrings.Uint32RoundTrip` | src/utils/index.ts:469-469 | A length field holds its number modulo 2^32 |
| `ByteStrings.LowestByteFirst` | src/utils/index.ts:340-348 | Its bytes stand lowest first |
| `Frames.FrameRoundTripIffFits` | src/utils/index.ts:340-381 | A frame is unpacked as it was packed exactly if its header is under 2^32 bytes |
| `Frames.ShortFrameRefused` | src/utils/index.ts:359-375 | A frame cut short is refused |
| `Frames.PackFrameBuffer` | src/utils/index.ts:340-348 | The buffer written is the frame |
| `Frames.JoinUndoesSplit` | src/utils/index.ts:277-331 | Joining undoes splitting for every kind of message, empty bodies included |
| `Frames.BodyIsSplitOff` | src/utils/index.ts:263-300 | For each type of message by name: exactly the bytes of its body field leave the header, which otherwise stays but for the mark of an empty body; every other message stays whole |
| `Frames.BodyComesBack` | src/utils/index.ts:306-331 | For each type by name: a file update's content comes back as a buffer, the others' data as a view, an empty body as a buffer |
| `Frames.MarkMustBeTrue` | src/utils/index.ts:315-331 | The mark of an empty body counts only if it is true, not empty and not zero |
| `Frames.FrameIs` | src/utils/index.ts:340-348 | The length of the header, the header, the body |
| `Frames.MessageRoundTripIff` | src/utils/index.ts:277-381 | Split, framed, unframed and joined, with a JSON that loses binary values, a message is what it was exactly if no binary value but its body is in it |
| `Chunks.HonestStartAccepted` | src/main.ts:4202-4234 | The receiver accepts an honest transfer exactly if the file has content, neither it nor its chunks are too large, and there are no more than 8192 of them |
| `Chunks.EmptyStartAccepted` | src/main.ts:4202-4234 | A transfer of no bytes is accepted as one chunk |
| `Chunks.SendFileInChunks` | src/main.ts:4088-4150 | The chunks are the consecutive pieces of the file |
| `Chunks.Reassembly.HandleChunk` | src/main.ts:4279-4319 | Too long or overrunning aborts, an index out of range is ignored, a chunk seen before changes nothing, a new one is written at its offset; complete exactly when all have come |
| `Chunks.Reassembly.HandleChunks` | src/main.ts:4279-4325 | Honest chunks in any order, any number of times: never refused, complete exactly when each has come, and the buffer is then the file |
| `Chunks.ChunksApart` | src/main.ts:4295-4307 | Chunks are written to disjoint ranges |
| `Chunks.WholeFile` | src/main.ts:4319-4325 | Once every chunk is in place the buffer is the file |
| `ConfigSyncs.ReceivingKeepsLater` | src/core/ConfigSync.ts:428-541 | A device that receives a file or deletion keeps the later of it and what it has |
| `ConfigSyncs.AnyOrderKeepsLatest` | src/core/ConfigSync.ts:428-541 | With distinct times and contents, the changes of a path leave the latest one, in whatever order and from whomever they come |
| `ConfigDevices.ConfigDevice.Refresh` | src/core/ConfigSync.ts:262-315 | A scanned path has what the disk has, or a deletion, or nothing if the file is too large; unreadable or untouched ones stay; a change is announced, a touch is not |
| `ConfigDevices.ConfigDevice.SendManifest` | src/core/ConfigSync.ts:345-355 | The manifest lists what the device has and may tell, each path once, up to the limit |
| `ConfigDevices.ConfigDevice.ApplyManifest` | src/core/ConfigSync.ts:383-412 | What any manifest does at each path, listed however often and as file or deletion: its entries take effect one after the other, and what is to be asked for is asked for at the end |
| `ConfigDevices.ConfigDevice.HandleRequest` | src/core/ConfigSync.ts:414-422 | The files asked for, of those it has, are sent as often as asked for, up to the limit |
| `ConfigDevices.ConfigDevice.ApplyFile` | src/core/ConfigSync.ts:428-497 | A received file is asked for again if damaged, taken, answered with a newer file or deletion, or only its time is taken |
| `ConfigDevices.ConfigDevice.ApplyDelete` | src/core/ConfigSync.ts:507-541 | A received deletion is taken, or answered with the newer file |
| `ConfigExchange.OneBeatsTheOther` | src/core/ConfigSync.ts:372-377 | Two devices with IDs of their own never both win and never both lose |
| `ConfigExchange.DeliverKeepsInv` | src/core/ConfigSync.ts:383-541 | Each delivery keeps the winner's change and the loser told or asking, and leaves less to be said |
| `ConfigExchange.DrainedDevicesAgree` | src/core/ConfigSync.ts:14-16 | After an exchange of manifests, six deliveries per path at most; once nothing is left, both have the same file or deletion, the winner's |
| `ConfigExchange.LaterBeats` | src/core/ConfigSync.ts:372-377 | With different times the winner is the later |
| `ConfigExchange.RemoteWinsIs` | src/core/ConfigSync.ts:372-377 | Later wins; at one time the lower hash, and then the lower device |
| `ConfigExchange.ChangeAndAnswerAgree` | src/core/ConfigSync.ts:428-541 | A file or deletion sent and its answer leave both devices with the same, whatever they had |
| `ConfigExchange.OfferMeetsDeletion` | src/core/ConfigSync.ts:392-405 | An offered file that is older than a deletion here is answered with it, and goes; one that wins is asked for |
| `ConfigPairs.Connect` | src/core/ConfigSync.ts:325-541 | Two devices that handle each other's messages, taking turns in any way: after two messages and six more for each path either remembers, at most, nothing is unread, and they have the same file or deletion at every path both accept, the winner's |
| `ConfigPairs.Read` | src/core/ConfigSync.ts:379-541 | Handling any message keeps every path both accept along in its exchange, and after the first message leaves less to be said |
| `Links.Connections.HandleHandshake` | src/main.ts:3484-3510 | Of two open links one is kept and the other closed |
| `Links.Connections.HandleHandshakes` | src/main.ts:3484-3510 | Handshakes in turn keep one link, and it is open |
| `Links.KeepsLastOfLower` | src/main.ts:3486-3500 | What is kept is the last link that the lower device opened, if it opened one, otherwise the last link |
| `Links.BothEndsAgree` | src/main.ts:3486-3500 | Both ends keep the same link whenever they see each dialler's links in the same order |

## Left out

- Gossip.RunKeepsInv: an edit is counted as soon as it is made, and edits have distinct times and contents, each later than the version it replaces; changes that wait to be counted are in the runs of `Drafts` and in the exchange of `DraftKeepsPeersEditIff`, which shows that they lose edits, not in these.
- PairEdits.NoOwnEditReplacedSilently: replies are never suppressed; the five-second pause between replies is not modelled. A reply carries the content and vector from when it was decided on; that the queue re-reads the file when it sends is not modelled.
- Replicas.Device.ApplyFileUpdate: the integrity check of the hash, the scope of the path, folders in the way of a file, and writes that fail are not modelled.
- Replicas.Device.HandleFileModification: a file that moves or disappears during the read is not modelled.
- Replicas.Device.ReplyWithOurVersion: the pause of five seconds between replies, and a peer that is gone, are not modelled.
- Replicas.Device.ApplyFileDelete: folders, the scope of the path, and a trash that fails are not modelled.
- Drafts.TypedWordsStay: the hash kept of a peer's version may be forgotten at any time; the debounce ends at any time, and the trash keeps everything.
- RoundTrips.RoundTripAgrees: neither device changes or hears anything else meanwhile, and no change waits in a debounce.
- Note deletions are handled by one device and agreed on by two (`EditVersusDeleteAgrees`), but are not part of runs: where both sides delete, the first tombstone time is kept, so "latest" fails there.
- Files received in a batch carry no vector, so nothing about contents is concluded from the pull protocol.
- Versions of a file: a missing hash, device or vector is the empty one, as the code treats them; times are reals; strings are compared by code units.
- SyncOutcomes.SyncKeepsInv: from installed plans on; a session layer delivers every message once, in any order, and every queued task ends once. Aborts, timeouts, lost links and messages of an earlier sync are not modelled; nor is a queue that refuses a task whose id already waits.
- Sessions.SyncSession.HandleBatchComplete: whether a batch was fast is a parameter in place of clock and byte counts; progress numbers and notices are left out.
- Sessions.SyncSession.HandleRequestBatch: the estimated size of a file on the wire is given with it.
- Sessions.SyncSession.constructor: the order by size is the library's sort, and a parameter.
- SyncPlans.MakePlan: manifests that list a path twice are left out, and so is the one message that tells the peer its share.
- Merkle trees are maps from paths to hashes, a node being known by its path; that two nodes are never one object, and objects whose names every JavaScript object inherits, are not modelled. A path is its list of parts, so a part that is the empty string does not collide with the root.
- MerkleDirty.FoldIsRebuildIff: the vault is read once for the whole list; a file that changes while the list is folded in is dirtied again and comes with the next one.
- MerkleCaches.TreeCache.GetCurrent: reading and hashing the changed files is one step.
- MerkleDiff.TreeDiff.DiffTrees: that equal non-empty hashes mean equal leaves below is assumed; `RenameKeepsRoot` shows it can fail, since names are not hashed.
- QueueManagers.QueueManager.Settle: the two promise callbacks at the end of an item are one step. Every call passes an item of its own, known by its number.
- QueueManagers.QueueManager.ClearForPeer: where heap order is lost, nothing is promised of the drain order afterwards.
- Tlv.FilesRoundTrip: how text and times become eight-bit bytes is a parameter, and has to give back what it was given; a path that starts with a byte-order mark, or holds half of a surrogate pair, is one that it does not.
- Frames.MessageRoundTripIff: JSON is a pair of parameters of which reading undoes writing, but for binary values; a message with a field named `__emptyBody` of its own is left out.
- Chunks.Reassembly.HandleChunk: after its last chunk a transfer is forgotten and its hash checked; the model's object stays. The limit on concurrent transfers, the scope of the path and the check that the time is finite are left out.
- ConfigDevices.ConfigDevice.ApplyManifest: the scan before a message is handled is a separate call (`Refresh`); entries without a hash or a finite time are not messages of this model.
- ConfigDevices.ConfigDevice.ApplyFile: data that cannot be decompressed, and files that change or cannot be written while they are applied, are left out; a written file keeps the sender's time.
- ConfigDevices.ConfigDevice.ApplyDelete: a file that changes while it is removed, or that cannot be moved to the trash, is left out.
- ConfigDevices.ConfigDevice.HandleRequest: a file is sent as it was last scanned; the code reads it once more.
- ConfigDevices.ConfigDevice.Refresh: one connected peer is modelled; a change is told to each in the same way.
- ConfigPairs.Connect: two devices whose disks do not change meanwhile, with fewer entries than a manifest may hold.
- ConfigSyncs.AnyOrderKeepsLatest: deletions are never forgotten here; pruning after the retention period is left out.
- Links.Connections.HandleHandshake: the checks of version, blocking and pairing before it, and modes other than the peer-to-peer one, are left out.
- Encryption, compression, SHA-256, discovery, reconnection, live typing, edit locks, folder and rename messages, the adaptive chunk size and the user interface are not part of this model.
- `src/core/sync/ConflictResolver.ts` and `src/core/sync/VersionVectorManager.ts` repeat the rule of `src/utils/versions.ts` and are not modelled again.
