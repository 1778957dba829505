# TinyBFT: agreement, state store and supporting structures

This project models the core of a Byzantine-fault-tolerant replication library and proves what it is for. A group of
3f + 1 replicas, at most f of them faulty, orders batches of requests. The primary of a view proposes a batch for a
sequence number, the others prepare and commit it; when a view makes no progress a view change starts the next one.
Every replica executes the batches on a memory of blocks, takes a checkpoint of it every 128 batches, and fetches the
partitions it misses from the others.

What the modules are about, hardest first:

- **Agreement over whole runs.** `Protocol` is a step relation over the replicas and the set of all messages sent: the
  handlers of `ReplicaState`, and anything the faulty replicas care to send under their own names. `Primaries` says
  who leads a view and `Handlers` what the handlers come to; `Replicas` has the same handlers in place, with their
  loops over the window. `ProtocolInvariant` is what every step keeps, proved step by step in `ProtocolSteps`,
  `ProtocolViewSteps`, `ProtocolViewChange` and `ProtocolRuns`. `Agreement` concludes that no two correct replicas
  ever hold different requests committed at a sequence number, and that a new view cannot lose a committed one, in
  runs that enter views by the rules. `ExampleRun` shows a run in which a request commits, so none of this is about
  nothing. `CodeRuns` has the guards that a backup really tests and says exactly which of its runs are such;
  `Disagreement` has two that are not, in which agreement fails.
- **Bounded memory of old views.** A replica keeps one record per sequence number of all that happened there in earlier
  views. `OldRequestState` proves this record an exact summary of the unbounded history, and `SupersededDigests` that
  its digests of superseded requests are exactly the most recent ones. View-changes report these records
  (`ViewChanges`).
- **Forming and checking a new view.** `NewViewRules` states over sets of view-changes which checkpoint, range and
  requests a new view may take. `NewViewCounters` and `NewViewInfo` prove that the primary, which weighs view-changes
  one at a time with nested counters, only makes new views that these rules allow; `NewViewTallies` has what the
  counters come to exactly, so that a view on which enough view-changes agree is made, and `NewViewInstall` that it
  may install them; `NewViewCheck` says exactly when a backup accepts.
- **Certificates.** `CertificateState` and `Certificates` count matching messages of distinct replicas under refresh
  and forgetting, for every run and every order of arrival; `CertificateMessages` says which messages they hold;
  `PreparedCertState` and `PreparedCerts` put a pre-prepare on top.
- **State store.** `StateStore` keeps checkpoints as copies made on write and is proved to read every retained checkpoint
  as a full copy would; `TreeUpdate` proves the incremental tree of digests equal to one computed from scratch.
- **Fetching state.** `FetchPlan` and `Fetching` prove the depth-first fetch, driven by messages that may say
  anything, to keep its queues in order and to end at the certified digest; `FetchAges` follows which partitions are
  newer than those they are part of; `FetchRuns` proves of whole fetches that they get closer with every message
  accepted and end with every digest right if these describe one state.
- **Execution.** `ExecutionLog` and `Executions` run batches on the state store: the memory is always the fold of the
  executed log, rollback included, and no request is executed twice.
- **Supporting structures.** `LogAllocator`, `HashChains`, `HashIndex`, `Bitmaps` and `Logs`.

Classes stand for the source's classes whose methods change fields; each is proved against functions or ghost state that
say what it means. Hashes are parameters, of which nothing is assumed but that digests are never null and below the
modulus of digest sums. Messages are authenticated: a faulty replica cannot send in another's name. The group has f >= 1.

Where code and its documentation differ, the model follows the code. What that turned up is stated as lemmas:

- The backup's recount compares views and not digests (`RecountIsRule`, `ConflictIsAccepted`), which can cost agreement
  (`RecountDisagrees`).
- The skipping of a new view's range does not look at whether the range was accepted (`EnterOnStable`,
  `RejectedIsEntered`), which can cost agreement too (`SkipDisagrees`).
- The lowering of a new view's max never happens (`UpdatedRefersFurther`); that its range is within the window, as an
  assertion has it, does not follow from what was checked (`RangeBeyondWindow`) and holds under a condition on the
  view-changes (`WindowFits`).
- `clear` leaves digests that `prepare` still finds (`ClearLeavesDigestsBehind`).
- A log truncated with a 32-bit counter keeps retired slots at 2 to the 31 (`CountableIff`, `StopsAtTwoToThe31`).
- A hash index asked for more than 2 to the 30 slots gets none (`Sizeup`).
- `malloc` returns only for sizes below the chunk's data (`FitsEmptyChunk`, `NeverFits`).
- A rollback keeps a batch that is not committed if a checkpoint was taken for it (`SendViewChange`, `KeepsUncommitted`),
  which can cost the replica its agreement with the others on the memory (`SameIffNoneReplaced`, `KeptDiffers`).

## Model

| member | source | states |
|---|---|---|
| `CertificateState.InvAdd` | src/Certificate.t:44-131 | Adding a message keeps the certificate invariant: stored values differ pairwise; while none is known correct the counts sum to the number of replicas heard and each is at most f; then the correct one counts its distinct voters, exactly until complete and never more than there are |
| `CertificateState.InvAddMine` | src/Certificate.t:132-188 | So does adding the replica's own message, which is the correct value from then on unless refused |
| `CertificateState.InvMarkStale` | src/Certificate.t:190-211 | So does forgetting messages with old keys: a complete certificate stays, another keeps only its own message |
| `CertificateState.InvRun` | src/Certificate.t:44-232 | The invariant holds after every run of add, add_mine, mark_stale, cvalue_clear and clear from an empty certificate |
| `CertificateState.CompleteMeansQuorum` | src/Certificate.h:190-193 | After any run a complete certificate has at least as many distinct replicas that voted for its value as completeness asks |
| `CertificateState.NoOverflow` | src/Certificate.t:104-116 | With at most f faulty replicas and correct ones that agree, the overflow that clears the certificate is not reached |
| `CertificateState.OrderIndependence` | src/Certificate.t:44-188 | With at most f faulty replicas and correct ones that all vote v, whatever the order of messages: no value but v is ever taken as correct by votes, and once all correct replicas were heard, this one included, the certificate is complete with v |
| `CertificateMessages.KeptAdd` | src/Certificate.t:44-131 | Adding a message keeps what the entries represent: each counts exactly the replicas whose messages with its value were counted, and holds one of these messages, full iff one of them is |
| `CertificateMessages.KeptAddMine` | src/Certificate.t:132-188 | So does adding the replica's own message, which is full |
| `CertificateMessages.KeptRun` | src/Certificate.t:44-232 | So does every run of the operations from an empty certificate |
| `CertificateMessages.CorrectIsFullest` | src/Certificate.h:180-193 | After any run the message returned as the correct value is one of those counted for it, and a full one iff any of them is; the number of correct messages is theirs |
| `Certificates.Certificate.Add` | src/Certificate.t:44-131 | The array of values in place does what the specification function does, result included |
| `Certificates.Certificate.AddMine` | src/Certificate.t:132-188 | Same for the replica's own message |
| `Certificates.Certificate.MarkStale` | src/Certificate.t:190-211 | Same for mark_stale, whose vals entries are moved |
| `Certificates.Certificate.CValueClear` | src/Certificate.t:213-232 | Same for taking the correct value out |
| `Certificates.Certificate.Clear` | src/Certificate.h:207-220 | The certificate is as constructed |
| `PreparedCertState.CompleteMeansPrepared` | src/Prepared_cert.h:162-164 | A complete prepared certificate has a pre-prepare and 2f distinct replicas that prepared its digest |
| `PreparedCertState.AcceptedPrePrepare` | src/Prepared_cert.cc:39-81 | A pre-prepare is accepted only into an empty slot and only if it agrees with the prepare this replica sent, if any; without that prepare and without verified requests f distinct replicas prepared it |
| `PreparedCertState.BackedIsAccepted` | src/Prepared_cert.cc:39-81 | Into an empty slot an authentic pre-prepare is accepted iff it is the one that this replica prepared, or, if it prepared none, its requests are verified or f distinct replicas prepared it |
| `PreparedCerts.PreparedCert.AddPrePrepare` | src/Prepared_cert.cc:39-81 | The object in place does what the specification says, for every combination of guards |
| `PreparedCerts.PreparedCert.IsPPCorrect` | src/Prepared_cert.cc:25-37 | True iff some value that matches the pre-prepare is counted f times or more |
| `PreparedCerts.PreparedCert.MarkStale` | src/Prepared_cert.h:179-189 | The pre-prepare goes with the stale prepares, unless this replica is the primary or the certificate is complete |
| `CertificateMeaning.CompleteMeansQuorumPrepared` | src/Prepared_cert.h:162-164 | In the protocol, a complete prepared certificate means that 2f + 1 replicas stand behind its digest in its view, the faulty ones counted in |
| `CertificateMeaning.CompleteMeansQuorumCommitted` | src/Replica.cc:680-704 | A complete commit certificate means that 2f + 1 replicas sent a commit in its view, the faulty ones counted in |
| `OldRequestState.ReplaySummarises` | src/View_info.cc:60-117 | Adding views one at a time to a request record gives what its documentation says: prepared in v with that digest ever since, last seen in lv; or seen last in v, with another digest last in lv, and nothing prepared after lv |
| `OldRequestState.SummarisesIffReplay` | src/View_info.h:187-204 | That description determines the record: it holds of the one that add_complete and add_incomplete leave and of no other |
| `OldRequestState.DecidedIsKept` | src/View_info.cc:60-117 | The bounded record never forgets a request that prepared in view v if all later ones were the same: it is reported prepared, in v or later |
| `OldRequestState.VouchedIsLater` | src/NV_info.cc:455-479 | What the record vouches for in a view above v is the digest of all its events above v |
| `OldRequests.OReqInfo.AddComplete` | src/View_info.cc:60-71 | The record and its superseded digests in place follow the specification |
| `OldRequests.OReqInfo.AddIncomplete` | src/View_info.cc:73-117 | So they do here; the loop over ods finds the digest or the oldest entry |
| `OldRequests.OReqInfo.Prepare` | src/View_info.cc:157-172 | True iff the digest is the record's or is among the superseded ones |
| `SupersededDigests.CacheFollowsHistory` | src/View_info.cc:93-112 | Since the last prepared request or clear, ods holds exactly the f + 2 superseded digests with the greatest last views, each once and with that view |
| `SupersededDigests.RecentsAreTheSuperseded` | src/View_info.cc:84-116 | The list that the cache is measured against has exactly the digests that gave way to another one, with the last view each was current in |
| `SupersededDigests.PrepareLoggedExactly` | src/View_info.cc:157-172 | After any history since a clear, prepare() says yes iff the digest is the last one or among the f + 2 superseded last, or an entry no longer in use still has it |
| `SupersededDigests.ClearLeavesDigestsBehind` | src/View_info.h:311-320 | A concrete history after which clear leaves a digest in ods that prepare() still answers for although nothing was sent |
| `ViewChanges.ViewChange.AddCheckpoint` | src/View_change.cc:43-54 | Puts the digest at its index and null digests at those skipped |
| `ViewChanges.ViewChange.AddRequest` | src/View_change.cc:56-80 | Puts the record at its index and null requests at those skipped; prepared is marked, never unmarked |
| `ViewChanges.AddCheckpoints` | src/View_info.cc:213-217 | The message reports exactly the checkpoints held up to the last executed batch |
| `ViewChanges.AddRequests` | src/View_info.cc:219-227 | The message reports exactly the records of the log that are not null, and refers to nothing beyond them |
| `ViewChanges.BuildViewChange` | src/View_info.cc:201-231 | Both of the above for the whole message |
| `ViewChanges.BuiltIsMine` | src/Replica.cc:1087-1125 | The message built is one that the protocol model lets the replica send on leaving its view |
| `ViewChanges.ViewChange.Req` | src/View_change.cc:112-125 | The array form of req() is the specification's |
| `ViewChanges.ViewChange.Proofs` | src/View_change.cc:96-110 | So is that of proofs() |
| `ViewChanges.ViewChange.Ckpt` | src/View_change.cc:82-94 | So is that of ckpt() |
| `NewViewCounters.UpdateCkptOK` | src/NV_info.cc:253-324 | Weighing a view-change for a checkpoint candidate keeps its counters sound: n_proofs at most the view-changes that hold it, n_le at most those that end by its max_seqno with a stable checkpoint no higher |
| `NewViewCounters.FreshCkptOK` | src/NV_info.cc:294-318 | So does making a new candidate out of the lower ones counted on the way |
| `NewViewCounters.ChosenIsSelected` | src/NV_info.cc:326-351 | A candidate with n_proofs above f and n_le above 2f is a checkpoint the rules select, and its max_seqno + 1 an end of range they select |
| `NewViewCounters.UpdateReqOK` | src/NV_info.cc:481-543 | The counters of a request candidate stay sound: n_le at most the view-changes with nothing above it (an equal view needs an equal digest), n_proofs at most those that vouch for it; NewViewTallies has what they are exactly |
| `NewViewCounters.FreshReqOK` | src/NV_info.cc:511-540 | A new candidate counts distinct lower candidates, which is sound too |
| `NewViewCounters.CountedIsSelected` | src/NV_info.cc:372-384 | A candidate that counted enough among the view-changes summarised so far is selected by the rules among all of them |
| `NewViewTallies.TallyNext` | src/NV_info.cc:498-517 | Weighing a view-change keeps the counters of a candidate exact: n_le is one, the lower candidates before it, and every later view-change that is not above it; n_proofs is those that vouched for it up to then and every later one that vouches for it or reports it; r_pproofs has those that speak for its very digest, and n_pproofs is no less or enough |
| `NewViewTallies.TallyFirst` | src/NV_info.cc:519-540 | So does a new candidate |
| `NewViewTallies.CountsEnough` | src/NV_info.cc:481-543 | No counter falls behind: n_le is at least the view-changes weighed that report the request, and one more than those weighed later that are not above it; n_proofs at least those that vouch for it |
| `NewViewTallies.AgreedCounts` | src/NV_info.cc:481-543 | A request that 2f + 1 of the view-changes weighed report has a candidate that counted enough, with positive proofs enough |
| `NewViewTallies.WeighedTallied` | src/NV_info.cc:253-318 | Weighing a view-change keeps the counters of the checkpoints exact: n_proofs is all that hold it, n_le is one, the lower candidates before it and every later view-change up to it, max_seqno is the last number that one of those refers to |
| `NewViewTallies.AgreedCkpt` | src/NV_info.cc:326-329 | A stable checkpoint that 2f + 1 view-changes report has a candidate that counted enough |
| `NewViewInfo.NVInfo.constructor` | src/NV_info.cc:52-65 | Nothing is weighed or chosen yet and the invariant holds |
| `NewViewInfo.NVInfo.Summarize` | src/NV_info.cc:253-324 | A view-change in, the candidates are exactly those updated by it plus one if none matches, the highest sufficient checkpoint is chosen, every row of the range is weighed, and all counters stay exact; the end of the range once chosen stays, and the new view is made as soon as the count of complete requests says so; it follows all rules |
| `NewViewInfo.NVInfo.ChooseCkpt` | src/NV_info.cc:326-370 | Which candidate is chosen, that min rises to it while max is that of the first choice, and that the rows for the first choice are summarised from all view-changes |
| `NewViewInfo.NVInfo.SummarizeReqs` | src/NV_info.cc:481-543 | Every row of the range is weighed for the view-change: each candidate updated and one added iff none has its request; the counters of all rows stay exact |
| `NewViewInfo.NVInfo.SummarizeAt` | src/NV_info.cc:489-542 | The same for one row, with the counters of the added candidate |
| `NewViewInfo.NVInfo.CheckRow` | src/NV_info.cc:372-401 | A candidate becomes the complete request of its row iff there is none, it counted enough, and it is null or its pre-prepare and f + 1 prepares are at hand once the logs are consulted; nothing else changes |
| `NewViewInfo.NVInfo.CheckComp` | src/NV_info.cc:372-420 | The same, and the new view is made if it is complete then |
| `NewViewInfo.NVInfo.CountProofs` | src/NV_info.cc:530-538 | Counts exactly the summarised view-changes whose word get_proofs takes |
| `NewViewInfo.NVInfo.MakeNewView` | src/NV_info.cc:545-572 | The message made follows all rules, for this view, of all view-changes received, with the range counted |
| `NewViewInfo.NVInfo.FinishIfComplete` | src/NV_info.cc:403-408 | A new view is made iff the number of complete rows is the length of the range, and it follows all rules |
| `NewViewInfo.DoneCountsRange` | src/NV_info.cc:353-369 | The number of complete rows is the length of the range iff min lies below the end of the range and every row of it is complete |
| `NewViewInfo.WeighedAscends` | src/NV_info.cc:266-318 | Weighing a view-change keeps the candidates ordered: a higher checkpoint refers at least as far as a lower one |
| `NewViewInfo.UpdatedRefersFurther` | src/NV_info.cc:362-364 | The order holds in mid-loop between the chosen and the current candidate, so a higher start never lowers max |
| `NewViewInfo.NVInfo.WaitsForRequest` | src/NV_info.cc:403-408 | While the new view is not made, some row of a range that is not empty has no candidate that is ready |
| `NewViewInfo.NVInfo.AgreedIsChosen` | src/NV_info.cc:326-351 | If 2f + 1 view-changes report one stable checkpoint, a start is chosen, no lower than it |
| `NewViewInfo.NVInfo.AgreedIsComplete` | src/NV_info.cc:372-401 | A number of the range for which 2f + 1 view-changes summarised report one request, null or at hand, has a complete request |
| `NewViewInfo.NVInfo.AgreedIsMade` | src/NV_info.cc:372-408 | When every number of the range is such, the new view is made |
| `NewViewInfo.AtHandIff` | src/NV_info.cc:372-401 | A candidate completes its row once the logs are consulted iff it counted enough and is null, or its pre-prepare turned up with f + 1 positive proofs or a prepare of this replica, or is in its log |
| `NewViewInfo.CountsOnce` | src/NV_info.cc:766-787 | A prepare of a replica counts one, and a second one nothing |
| `NewViewInstall.WeighForInstall` | src/NV_info.cc:545-572 | A view-change that completes the new view of the primary makes a message that the install step of the protocol takes, with the number known stable, iff the range fits: its end is at most the log size above the primary's stable checkpoint or above a number that the view-changes vouch for |
| `NewViewInfo.StartIsValid` | src/NV_info.cc:545-564 | The start and range of the message made are selected by the rules among the view-changes it carries |
| `NewViewInfo.PickIsValid` | src/NV_info.cc:555-562 | So is every request it picks |
| `NewViewInfo.NVInfo.AddMissingPrePrepare` | src/NV_info.cc:744-764 | Requests that turn up are noted at the first candidate with their digest, which is checked again; otherwise nothing changes |
| `NewViewInfo.NVInfo.AddMissingPrepare` | src/NV_info.cc:766-787 | A prepare counts once per replica and until f + 1, at the first candidate with its digest; otherwise nothing changes |
| `NewViewCheck.NVCheck.CheckStart` | src/NV_info.cc:577-601 | True iff the announced start is a stable checkpoint of the picked view-change that the rules select |
| `NewViewCheck.NVCheck.CountEnding` | src/NV_info.cc:603-613 | Counts exactly the view-changes that end below max |
| `NewViewCheck.NVCheck.CheckPick` | src/NV_info.cc:633-665 | True iff the announced request has f + 1 proofs and 2f + 1 view-changes with no higher view: views only, digests are not compared |
| `NewViewCheck.NVCheck.CheckNewView` | src/NV_info.cc:574-668 | A backup accepts iff start, range and every pick pass these checks; min, max and the chosen checkpoint are set exactly as far as they do |
| `NewViewCheck.RecountIsRule` | src/NV_info.cc:655-656 | The recount by views counts what the primary's rule counts iff no view-change prepared another digest in the picked view |
| `NewViewCheck.AcceptedIsSelected` | src/NV_info.cc:633-665 | What a backup accepts without such a conflict follows the primary's rule |
| `NewViewCheck.ConflictIsAccepted` | src/NV_info.cc:655-660 | With such a conflict a pick passes the recount that the rule does not select: a concrete new view |
| `NewViewCheck.SelectedIsAccepted` | src/NV_info.cc:574-668 | What follows the rules is accepted, the reports being ordered as those of correct replicas are |
| `NewViewCheck.HistoryIsOrdered` | src/View_info.cc:60-117 | They are: a record made by add_complete and add_incomplete has lv and v in order |
| `NewViewCheck.EnterOnStable` | src/NV_info.cc:789-797 | A backup whose stable checkpoint is ls enters without the requests iff the start is valid and, if the range is valid too, ls reaches max: a rejected range leaves max at -1, which ls always reaches |
| `NewViewCheck.RejectedIsEntered` | src/NV_info.cc:603-618 | There is a new view with a valid start and a rejected range that is entered whatever is stable |
| `NewViewCheck.KMax` | src/K_max.h:1-46 | The result is the k-th greatest value: at least k are no smaller and fewer than k are greater |
| `ViewChangeState.LastCkptIs` | src/View_change.h:218-226 | The last checkpoint of a view-change is the greatest number that it has one for |
| `NewViewCheck.KnownStable` | src/NV_info.cc:420-453 | The number returned is the greatest up to min that f + 1 view-changes call stable or 2f + 1 hold, and 0 if there is none |
| `NewViewCheck.WindowFits` | src/Replica.cc:1143-1156 | The assertion that the range is within the window, once what is known stable was made so, holds iff the number MAX_OUT below the end of the range is at most the replica's stable checkpoint, or f + 1 view-changes call it or a later one stable, or 2f + 1 hold such a one |
| `NewViewCheck.RangeBeyondWindow` | src/Replica.cc:1155-1156 | It need not: an accepted new view up to 257 for which nothing above 0 is known stable, at a replica whose stable checkpoint is 0 |
| `ReplicaState.MarkStable` | src/Replica.cc:1563-1616 | The window moves to n and nothing at or below it is kept in the logs; the certificates stay well formed |
| `ReplicaState.StableForgetsBelow` | src/Replica.cc:1577-1606 | The certificates, commits, records and checkpoints above the stable number are as before and those below are gone; the bounds rise to it at least, and nothing else changes |
| `Primaries.PrimaryIs` | src/Node.h:238-240 | The primary of a view is one of the replicas, and it is the one whose turn it is, counting the views round by round |
| `Primaries.NextPrimary` | src/Node.h:238-240 | Replica 0 leads view 0 and the next replica leads the next view, round and round |
| `Primaries.EveryReplicaLeads` | src/Node.h:238-240 | From any view on every replica leads within 3f + 1 views |
| `Primaries.OnlyPrimaryProposes` | src/Replica.cc:490-563 | In its turn a replica may propose, within the window and once it takes part in the view, and no other may |
| `Primaries.PrimaryPreparesNot` | src/Replica.cc:646-660 | The prepare of the primary of the view is refused, and that of any other replica counted |
| `Primaries.OnlyPrimaryAnnounces` | src/Replica.cc:1127-1204 | On entering a view the primary announces what was picked and any other replica prepares it |
| `Handlers.PrePrepareTaken` | src/Replica.cc:565-632 | A pre-prepare that is taken is answered with a prepare iff none was sent, and with a commit iff the request is prepared then; no other slot changes |
| `Handlers.PrePrepareRefused` | src/Replica.cc:565-632 | Any other pre-prepare changes nothing and is not answered |
| `Handlers.PrepareTaken` | src/Replica.cc:646-678 | The prepare that makes a request prepared is answered with a commit, and no commit is sent for one that is not |
| `Handlers.InstalledTakesPart` | src/Replica.cc:1127-1204 | A replica takes part in the view it installed iff it has the state that it starts from |
| `Handlers.LeavingTakesNoPart` | src/Replica.cc:1066-1087 | Leaving a view, it takes part in none |
| `Handlers.FetchedTakesPart` | src/Replica.cc:1495-1510 | State that was fetched lets it take part iff it reaches the start of the view that is installed |
| `Handlers.SkippingIsInstallingNone` | src/NV_info.cc:789-797 | Skipping a range is processing a new view that starts and ends at the stable checkpoint |
| `Handlers.InstalledHasPicks` | src/Replica.cc:1143-1204 | Every number of the range above the bound has the request that was picked |
| `ProtocolSteps.HandlePrePrepareKeeps` | src/Replica.cc:565-618 | The handler keeps the invariant of its replica and of what it sends: among others one vote per view and number, only votes that the new view allows, commits only where a quorum prepared |
| `ProtocolSteps.HandlePrepareKeeps` | src/Replica.cc:646-678 | The same for a prepare |
| `ProtocolSteps.HandleCommitKeeps` | src/Replica.cc:680-704 | The same for a commit |
| `ProtocolViewSteps.ProposeKeeps` | src/Replica.cc:490-533 | The same for the primary's proposal |
| `ProtocolViewSteps.InstallKeeps` | src/Replica.cc:1127-1204 | The same for process_new_view, primary and backup, of a new view that follows the primary's rules; what a backup accepts need not (CodeRuns) |
| `ProtocolViewSteps.TrimKeeps` | src/NV_info.cc:789-797 | The same for entering past the range of a new view that was accepted; the code skips rejected ones too (CodeRuns) |
| `ProtocolViewSteps.StableKeeps` | src/Replica.cc:1563-1616 | The same for a stable checkpoint |
| `ProtocolViewSteps.NewStateKeeps` | src/Replica.cc:1495-1561 | The same for a fetched checkpoint |
| `ProtocolViewSteps.TakeCheckpointKeeps` | src/Replica.cc:1429-1445 | The same for a checkpoint taken |
| `ProtocolViewChange.LeaveKeeps` | src/Replica.cc:1066-1125 | The same for send_view_change: every record becomes the summary of a true history that accounts for all commits sent, and the message reports it |
| `ProtocolRuns.SpeaksForItself` | src/Replica.cc:490-704 | A correct replica sends nothing under another name |
| `ProtocolRuns.NextKeeps` | src/Replica.cc:490-1233 | Every step of any correct replica, and anything the faulty ones send, keeps the invariant of all |
| `ProtocolRuns.RunKeeps` | src/Replica.cc:490-1233 | It holds in every state of every run |
| `Agreement.CommitterReports` | src/View_info.cc:201-231 | The view-change of a correct replica that committed n in view v reports it prepared, in v or later, with that digest |
| `Agreement.VoucherAgrees` | src/NV_info.cc:455-479 | A correct replica vouches in a view above v for no other digest |
| `Agreement.RangeSafe` | src/NV_info.cc:603-618 | No request that committed at a correct replica has a number at or above the max of a later new view that follows the rules |
| `Agreement.SelectionSafe` | src/NV_info.cc:481-543 | No other digest is selected for its number in a later new view |
| `Agreement.StartIsReal` | src/NV_info.cc:326-351 | The checkpoint a new view starts from was taken by a correct replica |
| `Agreement.LaterVotesAgree` | src/Replica.cc:1089-1124 | By induction over views: once d committed at n in view v, every vote of a correct replica at n in a later view is for d |
| `Agreement.InViewAgreement` | src/Prepared_cert.h:162-164 | Correct replicas in one view hold the same digest prepared at a number |
| `Agreement.Agreement` | src/Replica.cc:1219-1233 | In every run with at most f faulty replicas whose installs and skipped ranges meet the rules, whatever correct replicas hold committed at a number, at any times and in any views, is the same digest |
| `Agreement.ViewChangeSafety` | src/NV_info.cc:372-401 | In every run a new view that follows the rules has every earlier committed request below its max, selects only its digest for its number, and installs it if the number is above min |
| `CodeRuns.AcceptedIsValid` | src/NV_info.cc:633-665 | What a backup accepts follows all rules iff for every pick 2f + 1 view-changes stay not above it when digests are compared at equal views |
| `CodeRuns.CodeRunIsRun` | src/NV_info.cc:574-668 | A run on the guards of the code is one of the protocol iff every install by a backup has this property and every skipped range was accepted |
| `CodeRuns.CodeAgreement` | src/Replica.cc:1219-1233 | Agreement for runs on the guards of the code, under that condition |
| `Disagreement.RecountDisagrees` | src/NV_info.cc:655-660 | Not without it: a run of four replicas, one of them faulty, without skipped ranges, in which the recount by views lets two correct replicas commit different digests at number 1 |
| `Disagreement.SkipDisagrees` | src/NV_info.cc:789-797 | Nor if rejected ranges are skipped: a run without installs in which two correct replicas commit different digests at number 129 |
| `ExampleRun.CommitHappens` | src/Replica.cc:565-704 | There is a run, with a faulty replica, in which a request commits |
| `Replicas.Replica.HandlePrePrepare` | src/Replica.cc:565-604 | In place, the handler does and sends what the handler function of the protocol model does and sends |
| `Replicas.Replica.HandlePrepare` | src/Replica.cc:646-678 | The same for a prepare |
| `Replicas.Replica.HandleCommit` | src/Replica.cc:680-704 | The same for a commit |
| `Replicas.Replica.SendPrepare` | src/Replica.cc:606-618 | The same for sending a prepare, which is sent whether or not the certificate takes it |
| `Replicas.Replica.SendCommit` | src/Replica.cc:620-644 | The same for sending a commit |
| `Replicas.Replica.SendPrePrepare` | src/Replica.cc:490-533 | The same for a proposal, made iff the window and the view let it |
| `Replicas.Replica.SendViewChange` | src/Replica.cc:1066-1125 | The loop over the window leaves every record updated and every slot empty, as the function of the protocol model says, and the message built is one it allows |
| `Replicas.Replica.ProcessNewView` | src/Replica.cc:1127-1204 | The loop over the range leaves window, bounds and slots as the function says, and sends its messages |
| `Replicas.Replica.MarkStable` | src/Replica.cc:1563-1616 | Window, bounds and logs are as the function says |
| `Replicas.Replica.NewState` | src/Replica.cc:1495-1540 | So are the flags and bounds after state was fetched |
| `DigestSums.ExactModulo` | src/dsum.cc:19-52 | add and sub, which correct at most once, are addition and subtraction modulo M for reduced operands |
| `DigestSums.SubUndoesAdd` | src/dsum.cc:19-52 | They undo each other |
| `DigestSums.SumReplace` | src/State.cc:692-703 | Subtracting one digest from a sum and adding another gives the sum with it replaced |
| `DigestTree.TreeIsDetermined` | src/State.cc:586-661 | Memory and last-modified numbers determine the whole tree, the root digest with it |
| `DigestTree.SumsFollow` | src/State.cc:692-703 | Updating one digest and its parent's sum keeps every sum right |
| `TreeUpdate.NextLevel` | src/State.cc:674-708 | Updating the modified partitions of a level leaves only their parents out of date, one level up, and everything copied before it changed |
| `TreeUpdate.FinishUpdate` | src/State.cc:710-726 | With the root updated the tree is what hashing the memory from scratch gives |
| `TreeUpdate.ComputeLevel` | src/State.cc:639-650 | Every digest of the level is that of its block or sum, and the sums above are right |
| `TreeUpdate.ComputeFullDigest` | src/State.cc:635-661 | The tree computed from scratch is right at all levels |
| `StateStore.State.CowSingle` | src/State.cc:509-565 | The block's copy goes to the record of the last checkpoint; the snapshots do not change |
| `StateStore.State.Cow` | src/State.cc:567-584 | Exactly the blocks of the byte range are marked; the snapshots do not change |
| `StateStore.BlocksOfIs` | src/State.cc:567-584 | Those blocks are the ones that have one of the bytes |
| `StateStore.State.UpdateLevel` | src/State.cc:674-708 | The level is updated for exactly the modified partitions, with the sums above |
| `StateStore.State.UpdatePtree` | src/State.cc:663-732 | The tree is that of the memory, and the record keeps every changed partition as it was at the last checkpoint |
| `StateStore.State.Checkpoint` | src/State.cc:734-750 | The present memory and tree become the latest snapshot; all earlier ones stay readable |
| `StateStore.State.Rollback` | src/State.cc:752-808 | The memory is again that of the last checkpoint; all snapshots stay |
| `StateStore.State.Digest` | src/State.cc:810-818 | The digest of a retained checkpoint is its root's; any other number gives none |
| `StateStore.State.FindCopy` | src/State.cc:891-909 | The search through later records ends at a copy, equal to the partition at the checkpoint: the final assertion of the source is not reached |
| `StateStore.State.GetData` | src/State.cc:838-910 | A block read at a retained checkpoint is what it was when the checkpoint was taken |
| `StateStore.State.GetMetaData` | src/State.cc:912-936 | So are the digest and last-modified number of every partition |
| `StateStore.State.Truncate` | src/State.cc:820-828 | Exactly the snapshots before the number are dropped |
| `StateHistory.Unmodified` | src/State.cc:917-918 | A partition not modified after a checkpoint is as it was then, in every later one |
| `FetchPlan.TargetStays` | src/State.cc:1532-1550 | Finishing one queued partition does not move the target of its parent |
| `FetchPlan.CheckedIsReplaced` | src/State.cc:1332-1357 | The sum that check_digest computes is the one that fetching the queued children leads to |
| `FetchPlan.QueuesAll` | src/State.cc:1387-1414 | Every child whose announced digest differs is queued |
| `FetchPlan.ExpandOK` | src/State.cc:1380-1424 | Queueing the children keeps the queue discipline and takes less work than was left |
| `FetchPlan.FinishQueues` | src/State.cc:1540-1652 | Removing a finished partition keeps the discipline, or leaves the level above to be finished, and takes its work away |
| `FetchPlan.ChildrenDone` | src/State.cc:1515-1550 | When all children are done and no partition was newer than the one above, the parent's digest is that of its sum |
| `FetchPlan.FinishRest` | src/State.cc:1291-1330 | A finished partition takes at least its own work off what is left, however many levels end with it, unless one of these is fetched again |
| `FetchPlan.ClimbRest` | src/State.cc:1501-1661 | So does the end of a level |
| `FetchAges.FinishAges` | src/State.cc:1280-1291 | A finished partition is not newer than the one it is part of, as its entry in the queue says or the tree once that is finished, and none that was not newer becomes so |
| `FetchAges.ExpandAges` | src/State.cc:1380-1424 | Meta-data makes newer than its partition at most children that it leaves as they are |
| `FetchAges.FoundAges` | src/State.cc:1455-1490 | A partition found up to date makes newer at most itself and its children, as the tree has them |
| `Fetching.Fetch.StartFetch` | src/State.cc:938-988 | The root alone is queued, for the checkpoint and digest asked for, if nothing was being fetched |
| `Fetching.Fetch.HandleData` | src/State.cc:1153-1330 | A block is taken iff it is the one asked for and hashes to the certified digest. The queues are then those of finishing its partition, which is not newer than the one it is part of, and no other becomes newer; digests are lost track of iff a partition finished by it was newer than the one above or had changed since its checkpoint, and only in the latter case one is fetched again and less is not left to fetch; a fetch that ends has the digest it was started for and a root no newer than its checkpoint |
| `Fetching.Fetch.CheckDigest` | src/State.cc:1332-1357 | True iff the digests of the children add up to the digest announced |
| `Fetching.Fetch.HandleMetaData` | src/State.cc:1359-1430 | Meta-data is taken iff it is what was asked for and adds up; exactly the out-of-date children are queued, or the level is done, with the same effects as for a block; only children that it leaves as they are may be newer then |
| `Fetching.Fetch.Certified` | src/State.cc:1432-1499 | A certified digest for the root sets the goal, one for a partition below does not move it; the partition leaves the queue iff it has that digest already; digests are lost track of if the one certified below the root is not the one asked for |
| `Fetching.Fetch.DoneWithLevel` | src/State.cc:1501-1661 | The parent is finished and not newer than the one above it, and in turn its own level, or it is fetched again iff it was modified after its checkpoint; the goal stays, no partition becomes newer than the one it is part of, and last checkpoint and copied blocks change only when the fetch ends |
| `Fetching.NothingWorkedOn` | src/State.cc:1552-1642 | When the root is finished and digests were not lost track of, every partition's digest is that of its block or sum, apart from those wrong before |
| `FetchRuns.FinishFollows` | src/State.cc:1291-1330 | If queues and message are for one state, in which no child is newer than its parent, finishing a partition finds none newer than the one above and none to fetch again |
| `FetchRuns.DescribedFollows` | src/State.cc:1380-1424 | Meta-data of that state queues children for it, or ends the level the same way |
| `FetchRuns.CertificateFollows` | src/State.cc:1455-1490 | A certificate of that state confirms the digest asked for and keeps the fetch on it |
| `FetchRuns.Deliver` | src/State.cc:1153-1499 | Any message: taken iff its handler's checks pass, and if it describes the state the fetch stays on it, nothing is fetched again, and data and meta-data leave less to fetch |
| `FetchRuns.FetchAll` | src/State.cc:938-1661 | A whole fetch, whatever messages come in whatever order: those returned are those that the checks of their handlers let through, and the others change nothing; at the end the root is no newer than the last checkpoint and no partition is newer than the one it is part of but those that were before or that a message left so; if those taken describe one state, no partition is fetched again, at most a fixed number of them are data or meta-data, and at the end the root has the digest of that state and every partition the digest of its block or sum, apart from those wrong before |
| `FetchRuns.AgesByHash` | src/State.cc:1359-1378 | A message may leave newer children as far as the hash function allows: if the root hashes to its digest with another age too, a message with that age is accepted and leaves every newer child |
| `FetchRuns.LeftBeyondState` | src/State.cc:1359-1378 | A message that describes a state leaves newer only children that are newer than they are in that state |
| `ExecutionLog.RunWhenNewer` | src/Replica.cc:1297-1346 | A request is executed iff its id is above all ids executed for the client and above the first one recorded, malformed recovery requests apart, and the record then has its id |
| `ExecutionLog.IdsIncrease` | src/Replica.cc:1292-1367 | Along the whole log each client's requests are executed in the order of their ids, none twice |
| `ExecutionLog.RunsAlike` | src/Replica.cc:1280-1376 | The first k batches alone decide the memory after them |
| `ExecutionLog.RunsSame` | src/Replica.cc:1280-1376 | Of them only the requests and choices, not the view in which they were proposed |
| `ExecutionLog.RequestSteps` | src/Replica.cc:1297-1346 | What a request does, over the list of writes that exec_command makes on the memory with the reply record opened: every block of the service holds what was written to it last, or what it held; the record has the id, size and result of the reply; a recovery request is answered with the sequence number and writes nothing; an old request changes nothing |
| `ExecutionLog.StepsDecide` | src/Replica.cc:1297-1346 | That determines the memory |
| `ExecutionLog.BatchIsSteps` | src/Replica.cc:1292-1367 | A batch does this for its requests, one after the other |
| `ExecutionLog.NullDiffers` | src/Replica.cc:1292-1376 | Two logs that are the same before a number, one with a null request there: the memories after it differ if the other executes a request of its batch, whatever the service does, and malformed recovery requests apart only then |
| `Executions.Executor.Execute` | src/Replica.cc:1297-1346 | One request, with the copy before every write, makes the writes of the service and records its reply, as RequestSteps has it, and disturbs no snapshot |
| `Executions.Executor.ExecutePrepared` | src/Replica.cc:1280-1376 | The next prepared batch of this view is appended to the executed log iff nothing is tentative, the window has room and the view is installed; its requests make their writes one after the other, the memory is the fold of the log, and so is every checkpoint, one taken for this batch included |
| `Executions.Executor.ExecuteCommitted` | src/Replica.cc:1378-1459 | Batches are committed in order as far as they can be, each the very one that was executed; the last certified checkpoint among them becomes stable; every batch up to last_executed committed as it is in the log or was kept by a rollback; last_executed <= last_tentative_execute <= last_executed + 1 stays |
| `Executions.Executor.SendViewChange` | src/Replica.cc:1066-1087 | A tentative batch is rolled back to the last checkpoint at or before it, the log is cut there and the memory is its fold; last_executed rises iff that checkpoint is of the tentative batch itself, which is the one batch that is then kept without having committed |
| `Executions.KeepsUncommitted` | src/Replica.cc:1066-1087 | From a fresh replica 127 batches commit and the next is only prepared and executed; after the view-change it counts as executed and is kept, although it never committed |
| `Executions.Executor.MarkStable` | src/Replica.cc:1563-1616 | The window and the retained checkpoints move; memory and log stay |
| `Executions.ExecutedOnce` | src/Rep_info.cc:70-103 | In every state the reply records have the last id executed for each client, and no request was executed twice |
| `Executions.SameBatchesSameCheckpoint` | src/Replica.cc:1369-1373 | Replicas that executed the same requests up to a checkpoint both retain, in whatever views they were proposed, have the same memory there |
| `Executions.SameIffNoneReplaced` | src/Replica.cc:1066-1087 | Replicas that agree on all that committed executed the same batches up to a number iff none that one of them executed without its having committed, kept by a rollback or tentative, was replaced at the other |
| `Executions.ReplacedByNull` | src/Replica.cc:1066-1087 | If the one replaced last was replaced by a null request, their checkpoints there differ if a request of it was executed, and malformed recovery requests apart only then |
| `Executions.KeptDiffers` | src/Replica.cc:1066-1087 | That happens: two replicas that agree on all that committed, with checkpoints 128 that differ whatever the service does |
| `LogAllocator.Masking` | src/Log_allocator.h:142-148 | Masking an address gives the chunk it is in |
| `LogAllocator.Allocator.AllocChunk` | src/Log_allocator.cc:23-74 | The chunk given has no live block; it comes from the free list iff that is not empty |
| `LogAllocator.Allocator.Malloc` | src/Log_allocator.h:100-131 | The block is new, disjoint from all live ones and inside its chunk, and the loop ends |
| `LogAllocator.Allocator.Free` | src/Log_allocator.h:142-166 | The block is gone; its chunk is on the free list iff it has no live block and is not the current one |
| `LogAllocator.Allocator.Realloc` | src/Log_allocator.h:168-178 | Succeeds iff the block is the last of the current chunk and the new size fits; then only its size changes |
| `LogAllocator.FitsEmptyChunk` | src/Log_allocator.h:100-131 | A size fits some chunk iff it is less than the chunk size without its header |
| `LogAllocator.Allocator.MallocRound` | src/Log_allocator.h:100-131 | One round of the loop, for any size: a block if the rest of the chunk has room, else an empty current chunk; one that is empty already stays, with all else |
| `LogAllocator.Allocator.NeverFits` | src/Log_allocator.h:100-131 | For a size from the chunk's data up no number of rounds hands out a block |
| `HashChains.Buckets.Store` | src/buckets.t:90-101 | The linked list in place: a similar element is replaced where it is, a new one comes first; the result says which |
| `HashChains.Buckets.Remove` | src/buckets.t:103-117 | The similar element, if any, is unlinked and returned |
| `HashChains.Buckets.Find` | src/buckets.t:54-75 | What the chain has for the key |
| `HashChains.Buckets.Add` | src/buckets.t:83-88 | The element comes first |
| `HashChains.LookupStored` | src/buckets.t:90-101 | Storing changes the lookup of its key alone, and no two elements are similar then |
| `HashChains.LookupRemoved` | src/buckets.t:103-117 | So does removing |
| `HashChains.BucketsGenerator.Get` | src/buckets.t:144-155 | The next element, or none at the end |
| `HashChains.BucketsGenerator.Remove` | src/buckets.t:157-162 | The element given last is unlinked; the place does not move |
| `HashIndex.SlotInRange` | src/bhash.t:64-69 | do_hash is within 0 to numSlots - 1 for every element |
| `HashIndex.Sizeup` | src/bhash.t:173-184 | The table has the least power of two slots that is at least the wish, but 2, iff the wish is at most 2 to the 30; above, 32-bit doubling ends with no slots at all |
| `HashIndex.BHash.Store` | src/bhash.t:143-147 | The map has the element for its key, all else as before; the result says whether the key was there; numItems is the size of the map |
| `HashIndex.BHash.Remove` | src/bhash.t:149-153 | The map without the key, and what it had |
| `HashIndex.BHash.Find` | src/bhash.t:135-137 | What the map has for the key |
| `HashIndex.BHash.FindOrAdd` | src/bhash.t:123-133 | Adds only if the key is new |
| `HashIndex.BHash.Resize` | src/bhash.t:197-214 | Rehashing into another number of slots keeps the map |
| `HashIndex.BHash.Predict` | src/bhash.t:186-195 | The map stays, whether the table is resized or not |
| `HashIndex.BHashGenerator.Get` | src/bhash.t:41-55 | Every item is given once: the one given was not given before, and none is left when it says so |
| `HashIndex.BHashGenerator.Remove` | src/bhash.t:57-60 | The item given last leaves the map, and the iteration goes on as if it had not been there |
| `Bitmaps.Bitmap.Assign` | src/Bitmap.h:187-201 | Exactly that position changes, and nothing past the last one |
| `Bitmaps.Bitmap.AllZero` | src/Bitmap.h:233-237 | True iff no position is set and nothing is set past the last one |
| `Bitmaps.Bitmap.constructor` | src/Bitmap.h:123-131 | All positions have the value; with true and a size that is no multiple of 64 so have those past the last one |
| `Bitmaps.BitChanged` | src/Bitmap.h:187-201 | Changing a bit of a chunk changes one position |
| `Bitmaps.SkipIsRight` | src/Bitmap.h:244-247 | The step over a whole chunk passes nothing by iff nothing is between the end of the chunk and there, as from the start of a chunk |
| `Bitmaps.Iter.Get` | src/Bitmap.h:242-257 | The next position with the value is given, and none is passed by, as long as the bitmap does not change |
| `Logs.CountableIff` | src/Log.t:44-62 | Counting with a 32-bit variable reaches the new head iff no multiple of 2 to the 32, less 2 to the 31, is passed |
| `Logs.StopsAtTwoToThe31` | src/Log.t:44-62 | It does not when 2 to the 31 becomes stable: from head 2 to the 31 less 127 to 2 to the 31 plus 1 |
| `Logs.Log.Truncate` | src/Log.t:44-62 | Live slots are kept; the slots that enter the window are clear iff the whole log was retired or the head can be counted to, and hold what was retired otherwise |
| `Logs.Log.Clear` | src/Log.t:27-35 | All slots of the new window are clear |
| `Logs.Log.Update` | src/Log.t:37-42 | Writing through fetch changes that sequence number alone |
| `Logs.CheckpointLog.Truncate` | src/checkpoint_log.cc:28-49 | Certificates of the old window stay with their checkpoints, those that enter are clear |
| `Logs.CheckpointLog.Clear` | src/checkpoint_log.cc:12-18 | All certificates of the new window are clear |
| `Logs.IndexIsOneToOne` | src/checkpoint_log.h:61-67 | Checkpoints of the window have slots of their own |
| `Logs.IndexFollows` | src/checkpoint_log.h:61-63 | Moving the head moves no certificate |

## Left out

- Networking, timers, retransmission, status messages, statistics, configuration and printing: I/O.
- Byte layouts, authentication codes and keys: messages are values, their authenticity is a flag or part of the sender. Refreshing keys (`mark_stale`) is in the certificate classes and not in the protocol steps.
- The acknowledgements by which the primary knows that a view-change is authentic (`View_change_ack`): authentication is perfect here.
- Proactive recovery, shutdown and restart files, `Stable_estimator`, `make_complete`.
- The builds with static allocation, dynamic partition trees, alternative checkpoint records or fragmented objects.
- The congestion window of `send_pre_prepare`, read-only execution, buffered requests, non-deterministic choices other than as a parameter of execution.
- Sequence numbers and views are unbounded, except in the loop of `Log::truncate`; the sizes of the hash index are 32-bit.
- Protocol: a stable checkpoint is not guarded in the step relation (any replica may move its window up at any time), which allows more runs than the code does. Installing asks that the window reach the range: an assertion of the source, not a guard that it tests, and a replica where it fails takes no further step. `NewViewCheck.WindowFits` says exactly when it holds.
- ProtocolViewSteps.InstallKeeps: a backup installs what meets the primary's rule, where the code asks for a recount by views; the property fails for the code (`Disagreement.RecountDisagrees`), and `CodeRuns.CodeRunIsRun` has the exact difference. That the range fits the window is asserted there.
- ProtocolViewSteps.TrimKeeps: only an accepted range is skipped, where the code skips rejected ones too; the property fails for the code (`Disagreement.SkipDisagrees`).
- Agreement.Agreement: for runs whose installs and skipped ranges meet the rules; on the guards of the code it is `CodeRuns.CodeAgreement`, under the condition on installs and skips that its `requires` states.
- CodeRuns.CodeAgreement: for runs in which the assertion on the window holds wherever a new view is installed.
- Replicas.Replica.ProcessNewView: ranges beyond the window, where an assertion of the source fails (`NewViewCheck.RangeBeyondWindow`).
- CodeRuns.CodeRunIsRun: the assertion on the window is taken to hold wherever a new view is installed. That a backup waits for the pre-prepares of a new view is not a guard; the faulty primary can send them. In `Disagreement.SkipDisagrees` the 128 batches behind the checkpoint, which make the view-changes longer, are left out.
- Protocol: in a new view with an empty range the source's message reads past the requests picked; the range of the model has at least its start.
- Protocol and execution are separate models: a batch is a digest in one and a sequence of requests in the other.
- NewViewInfo.NVInfo: positive proofs may count one replica twice (`get_proofs` does not look at `r_pproofs`), as in the source; that n_pproofs is at most the number of replicas is not claimed.
- NewViewInfo.NVInfo.ChooseCkpt: rows beyond the first range are taken as incomplete where the source would read past `comp_reqs`.
- NewViewCheck.NVCheck.CheckPick: view-changes whose stable checkpoint is at or above the number are skipped, where the source calls `req` outside its precondition.
- NewViewInfo.NVInfo: completion is checked again after it was reached, as in a build without assertions.
- ViewChanges.ViewChange: the bitmap of prepared requests is an array of booleans; verification of the message is part of the rules.
- StateStore.State: checkpoints at multiples of the interval only, so not the one taken when a fetch starts, nor the state without a last checkpoint. Bitmaps of copied blocks are sets, visited in ascending order. Inner partitions without blocks are not in the tree.
- Fetching.Fetch: the certificate of `Meta_data_d` messages is the step in which it completes; checking state, refetch levels, keeping checkpoints while fetching (never asked for) and truncating the log at the end are not modelled. Sub-partitions are given as 256 digests, null where nothing is said.
- Fetching.Fetch.DoneWithLevel: a fetch in which a partition is newer than the one above it, or is certified again with another digest, is not claimed to end with every digest right, nor the measure to fall when a partition is fetched again; `FetchRuns.FetchAll` says for which messages none of this happens. The tree is said to be right, not spelled out step by step, as `Fetching.Fetch.FinishPart` changes it.
- FetchRuns.FetchAll: meta-data may leave a child newer than its parent (`FetchRuns.AgesByHash`), which a hash function that binds the age rules out for the states that there are; hashes being parameters, this is a term of the result. That the digest of the root determines the state below it is not claimed, hashes being parameters.
- Executions.Executor: a reply record is one block of memory; state transfer and stable checkpoints ahead of execution are left out; prepared and committed batches come as steps, which the protocol model is about. A recovery request changes keys in the source, which is not modelled; its reply is.
- Executions.Executor.MarkStable: stable checkpoints ahead of the last executed batch, which the source takes together with fetched state.
- HashIndex.BHash: chains are sequences in the table; `HashChains.Buckets` is the linked list in place, proved to do the same. `find_fast` and `remove_fast` are `find` and `remove` under a precondition.
- HashIndex.BHash.Resize: wishes above 2 to the 30, for which the source makes a table without slots; `Sizeup` says so.
- HashIndex.BHash.Predict: the same.
- Bitmaps.Bitmap: a chunk is the sequence of its bits, not a word with masks; other modules use sets and booleans for bitmaps. Copying a bitmap, which reads `nc` before it is set, and `encode` and `decode` are not modelled.
- Replicas.Replica: the certificates in its logs are values; that the certificate classes do the same in place is proved there. Requests, timers and execution are not part of it.
- LogAllocator.Allocator: memory that `mmap` gives is a parameter, disjoint from all there is.
- LogAllocator.Allocator.Malloc: sizes from the chunk's data up, for which the source does not return; `NeverFits` says so.
- `agreement_region`, `checkpoint_region`, `special_region`, `scratch_allocator`: static storage.
