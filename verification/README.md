# Verification of the comfyui image frontend core

A Dafny 4.11 model of the parts of the repository where a mistake costs data or
availability, with proofs of the properties they exist for.

| module | models |
|---|---|
| `SourcePaths`, `Publications`, `CatalogChanges` | the three files of a publication, the companion's consistency check, catalog changes and candidates, and what they mean field by field |
| `Transaction`, `TransactionRuns`, `HandlerAnswers` | the journaled handlers as plans of atomic steps over a disk, the states a call passes through, when a call is accepted and what it leaves behind |
| `CrashAtomicity`, `WeightSafety`, `FirstCommitter` | crash atomicity, weights, and optimistic concurrency over whole runs |
| `Preparation`, `LoraManagement`, `PreparedRuns` | what prepare computes, the handlers as they run, step by step, with failures, and the runs that prepares take part in |
| `Leases`, `Guards` | Save & Publish leases, and the locking of several sources |
| `Admission` | the bounded two-class queue and the life of a request's ticket |
| `LoraStack` | the ordered stack from the check to the node that applies it |
| `Values`, `Compiler`, `Recompile`, `CompiledResults`, `WorkflowCompiler` | the request compiler as a function, its idempotence, what its results mean, and the compiler as it runs |
| `Checker`, `InterfaceRules`, `CheckerSoundness`, `AcceptedFlaws`, `GraphFrame`, `SeedAdapter` | the publication checker, the rules it enforces, its soundness for the compiler and two interfaces that break it, what compilation leaves alone, and the seed gate and adapter |
| `Events` | subscribe, replay, deliver |
| `JsonTree` | the strict JSON check |
| `Deployment` | the deployment transaction, its recovery, and retention |

`dafny verify dfyconfig.toml` checks everything.

## How to read the model

A handler is given twice where the source is imperative: as a function (a plan of
steps, a pass over a queue, the result of a compilation) on which the theorems are
stated, and as a method with the source's loops and branches that is proved to do
what the function says. An atomic write or rename is one step. A step may fail with
or without having taken effect, and a process may stop after any step; `seen` in
`LoraManagement.Manager` collects the disks in which it might have stopped, and `faults`
counts the steps or commands that failed, so that an answer can be demanded when none
did. External commands, clocks, resolvers and other requests are parameters or
nondeterministic choices. Numbers are exact decimals, and differences are rounded to 28 significant
digits as the source's decimal arithmetic does. Digests are injective, and text
printed as JSON reads back as the value it was printed from (`Sha`, `Encoded`).

## Where the code falls short of its purpose

Each of these is proved, with the exact condition under which the code does meet
the property and an input or a run on which it does not.

- A commit believes a recorded "committed" without looking at the files (line 1091 of
  `lora_management.py`). After a rollback that was interrupted out of "committed", a
  repeated commit answers success over a mixture (`CrashAtomicity.CommitAnswer`,
  `CrashAtomicity.TornCommitReportsSuccess`).
- For the same reason a quarantine after such a rollback, and a rollback after an
  interrupted finalize, leave live files that name a missing weight
  (`WeightSafety.QuarantineExactly`, `WeightSafety.RollbackExactly`,
  `WeightSafety.HazardsAreReachable`).
- `a.json` and `a.workflow.json` share their graph and manifest
  (`SourcePaths.PublicationsClash`); only the manifest's source id keeps two targets of
  an operation apart (`Preparation.InspectedAreDisjoint`).
- The checker does not look at the type of the positive prompt; with an integer,
  number or Boolean one, accepted publications fail at request time with a contract
  error. So do accepted numbers whose range has more steps than 28 digits can count,
  for instance 0 to 1e30 in steps of 1e-05, because the remainder cannot be taken
  (`CheckerSoundness.AcceptedNeverBreaks`, `AcceptedFlaws.NumberPromptIsAccepted`,
  `AcceptedFlaws.FineNumberIsAccepted`).
- A stream loses events for good when its queue overflows or when more than 1000
  events above the resume id were published before it subscribed
  (`Events.CompleteExactly`, `Events.BacklogIsLost`, `Events.OverflowIsLost`).
- Recorded sampling seeds overwrite one another when node ids differ by case only
  (`SeedAdapter.SeedsAreRecorded`, `SeedAdapter.AlwaysRecorded`, `SeedAdapter.AdaptTwins`).

## Model

| member | source | states |
|---|---|---|
| `CrashAtomicity.EveryRunIsAtomic` | comfyui_extension/comfyui-image-frontend-interface/lora_management.py:1089-1243 | In every run of commit, rollback, quarantine and finalize calls, each stopped after any of its steps and mixed with foreign changes that leave the operation's files alone, every live file of all targets holds its journaled old or new bytes; recorded prepared or rolled back means all old; recorded committed, quarantined or finalized means all new exactly as long as no rollback has torn the publication |
| `CrashAtomicity.CommitAnswer` | comfyui_extension/comfyui-image-frontend-interface/lora_management.py:1089-1138 | A commit that answers success has published every new file if and only if no earlier rollback was interrupted out of a committed state, that is, if and only if the journal did not yet say committed or the first live file holds its new bytes |
| `CrashAtomicity.RollbackAnswer` | comfyui_extension/comfyui-image-frontend-interface/lora_management.py:1161-1221 | A rollback that answers success has restored every old file and recorded it |
| `CrashAtomicity.RollbackAccepted` | comfyui_extension/comfyui-image-frontend-interface/lora_management.py:1177-1200 | In every reachable state rollback is accepted if and only if the operation is not finalized and its weight is not in the library and in quarantine at once |
| `CrashAtomicity.TornCommitReportsSuccess` | comfyui_extension/comfyui-image-frontend-interface/lora_management.py:1091-1092 | The failing family of the commit answer: commit, a rollback that stops behind its first file, commit again; the last one answers success over a mixture of old and new files |
| `TransactionRuns.CommitCut` | comfyui_extension/comfyui-image-frontend-interface/lora_management.py:1108-1137 | The exact disk after any number of steps of a commit: weight first, then the intention, then the files in order, then the record of success |
| `TransactionRuns.RollbackCut` | comfyui_extension/comfyui-image-frontend-interface/lora_management.py:1193-1220 | The exact disk after any number of steps of a rollback: weight back first, then the files in order, then weights dropped, then the record |
| `TransactionRuns.QuarantineCut` | comfyui_extension/comfyui-image-frontend-interface/lora_management.py:1148-1158 | The exact disk after any number of steps of a quarantine |
| `TransactionRuns.FinalizeCut` | comfyui_extension/comfyui-image-frontend-interface/lora_management.py:1234-1242 | The exact disk after any number of steps of a finalize: kept bytes are forgotten only after the record says so, and other operations keep theirs |
| `WeightSafety.NoWeightDangles` | comfyui_extension/comfyui-image-frontend-interface/lora_management.py:1108-1237 | On the writer instance, at every crash point of every prudent run, each weight named by a live file of the operation exists in the library |
| `WeightSafety.QuarantineExactly` | comfyui_extension/comfyui-image-frontend-interface/lora_management.py:1140-1159 | Quarantining a committed removal leaves no dangling weight if and only if the publication has not been torn, that is if and only if its live files are the new ones |
| `WeightSafety.RollbackExactly` | comfyui_extension/comfyui-image-frontend-interface/lora_management.py:1193-1205 | Rolling back a removal is safe at every crash point if and only if its weight is in the library or in quarantine |
| `WeightSafety.HazardsAreReachable` | comfyui_extension/comfyui-image-frontend-interface/lora_management.py:1140-1243 | Two runs from every prepared removal that end with a dangling weight: quarantine after a torn rollback, and rollback after an interrupted finalize |
| `WeightSafety.PlanSpares` | comfyui_extension/comfyui-image-frontend-interface/lora_management.py:1108-1237 | No handler takes away a weight other than the one its operation is about |
| `FirstCommitter.OverwritesOnlyOwn` | comfyui_extension/comfyui-image-frontend-interface/lora_management.py:1099-1107 | No call of any operation, stopped anywhere, changes a live file unless the file held one of that operation's journaled values and ends with one |
| `FirstCommitter.UnseenBytesSurvive` | comfyui_extension/comfyui-image-frontend-interface/lora_management.py:1183-1192 | No interleaving of calls of any operations takes a file away from bytes that none of them has journaled |
| `FirstCommitter.FirstCommitterWins` | comfyui_extension/comfyui-image-frontend-interface/lora_management.py:966-969 | A committed manifest survives every interleaving of rivals prepared on the same base under other identities, even when workflow and graph bytes coincide |
| `PreparedRuns.NoLostUpdate` | comfyui_extension/comfyui-image-frontend-interface/lora_management.py:959-1040 | The same over runs that interleave prepares with all other calls: a committed manifest is replaced only through a request that names its revision as the expected one |
| `PreparedRuns.PreparedOnTop` | comfyui_extension/comfyui-image-frontend-interface/lora_management.py:964-970 | An operation that is prepared on a manifest was asked for with that publication as the expected one |
| `SourcePaths.SharedPart` | comfyui_extension/comfyui-image-frontend-interface/lora_management.py:131-134 | Two files of two publications are the same file only when they play the same part and the stems of the two workflow names agree |
| `SourcePaths.PathsAre` | comfyui_extension/comfyui-image-frontend-interface/lora_management.py:131-134 | The graph and manifest names that belong to a stem, with and without the .workflow infix |
| `SourcePaths.PublicationsClash` | comfyui_extension/comfyui-image-frontend-interface/lora_management.py:131-134 | Two distinct workflow names share a file if and only if they differ only by the optional .workflow infix |
| `Publications.CandidatePasses` | comfyui_extension/comfyui-image-frontend-interface/lora_management.py:984-1008 | A candidate passes the very consistency check its predecessor passed, at the same places, with exactly the new catalog and the requested identity |
| `Publications.CandidateDiffers` | comfyui_extension/comfyui-image-frontend-interface/lora_management.py:984-1008 | A candidate with another catalog differs from its predecessor in each of the three files |
| `Publications.ChangeKeepsCatalog` | comfyui_extension/comfyui-image-frontend-interface/lora_management.py:852-929 | Every accepted change gives another catalog with unique ids if they were unique; an edit or a sync never loses an (id, filename) pair |
| `Publications.CatalogNamesFollow` | comfyui_extension/comfyui-image-frontend-interface/lora_management.py:864-928 | Which files a catalog names after each kind of change: an install adds its own, a removal drops the removed one for good, a sync names only existing ones |
| `Publications.CandidateNames` | comfyui_extension/comfyui-image-frontend-interface/lora_management.py:344-404 | The same for the whole documents: after an accepted removal no live loader and no stack of the publication names the file |
| `Publications.CatalogItems` | comfyui_extension/comfyui-image-frontend-interface/lora_management.py:747-791 | A validated sync catalog keeps its length, names only files in the library and has distinct ids |
| `Publications.Removable` | comfyui_extension/comfyui-image-frontend-interface/lora_management.py:875-889 | An accepted removal is about the item with the requested id, whose file no other entry, loader or stack of the publication uses |
| `Publications.Edited` | comfyui_extension/comfyui-image-frontend-interface/lora_management.py:890-918 | An accepted edit changes exactly one item, to something different, and keeps its id and file |
| `CatalogChanges.AppliedMeans` | comfyui_extension/comfyui-image-frontend-interface/lora_management.py:852-929 | A validated request is applied exactly where the publication can take it, and then, as the request came in: an install appends one item with the id, the trimmed title and trigger word, the uploaded file and no description; a removal drops exactly the item with the id; an edit retitles exactly that item; a sync gives exactly the requested items with trimmed texts; all other items stay, in order |
| `CatalogChanges.ValidatedMeans` | comfyui_extension/comfyui-image-frontend-interface/lora_management.py:747-850 | A request is valid exactly when its ids, texts, file names, digest, upload and number of items are |
| `CatalogChanges.CatalogItemsMeans` | comfyui_extension/comfyui-image-frontend-interface/lora_management.py:754-791 | A sync catalog is valid exactly when each item is and no two share an id or a file; each item comes back with trimmed texts |
| `CatalogChanges.StripTrims` | comfyui_extension/comfyui-image-frontend-interface/lora_management.py:475-482 | Trimming removes exactly the blanks at both ends |
| `CatalogChanges.InspectMeans` | comfyui_extension/comfyui-image-frontend-interface/lora_management.py:262-331 | The consistency check accepts exactly the publications with one stack in each document, described alike, with the recorded paths and hashes, and finds where it is |
| `CatalogChanges.CandidateRewrites` | comfyui_extension/comfyui-image-frontend-interface/lora_management.py:984-1008 | A candidate has the new catalog, all of it off, in the two nodes, the declaration and the inventory, the new identity and its own hashes; every other node, widget, input and field is as before |
| `CatalogChanges.RevisionIdentifies` | comfyui_extension/comfyui-image-frontend-interface/lora_management.py:966-969 | Equal revisions are revisions of equal files |
| `Preparation.DraftIsSound` | comfyui_extension/comfyui-image-frontend-interface/lora_management.py:964-1008 | Every drafted target: well-formed candidate under the requested identity, all three files different, ids unique if they were, pairs kept by edit and sync |
| `Preparation.DraftMeans` | comfyui_extension/comfyui-image-frontend-interface/lora_management.py:964-1008 | A draft has the catalog that follows from the request, is about the requested file, and rewrites nothing else |
| `Preparation.DraftedExactly` | comfyui_extension/comfyui-image-frontend-interface/lora_management.py:964-983 | A target is drafted exactly when its files are there, have the expected revision, are consistent and can take the change |
| `Preparation.InspectedAreDisjoint` | comfyui_extension/comfyui-image-frontend-interface/lora_management.py:630-639 | Two publications that both pass the check share no file, because a shared manifest would have to name both sources |
| `Preparation.DraftedSlots` | comfyui_extension/comfyui-image-frontend-interface/lora_management.py:1012-1025 | The files of all drafted targets are distinct, hold the old bytes and all differ from the new ones |
| `Preparation.DraftedWeights` | comfyui_extension/comfyui-image-frontend-interface/lora_management.py:975-1011 | Preparing an operation on publications without dangling weights establishes everything the safety of weights rests on |
| `LoraManagement.Manager.Prepare` | comfyui_extension/comfyui-image-frontend-interface/lora_management.py:931-1040 | Refuses exactly for the listed reasons and without a trace, repeats the answer for the same request, or journals an operation; at every crash point the operation is as it was or, as soon as its journal says prepared, ready, faithful to its revisions, recorded with the right kind, file and digest, and in every target the catalog that follows from the request and nothing else rewritten; only a failing step interrupts it |
| `LoraManagement.Manager.DraftAll` | comfyui_extension/comfyui-image-frontend-interface/lora_management.py:964-1008 | Works out every target before anything is written; refuses if and only if some target cannot be drafted or two of them are about different files |
| `LoraManagement.Manager.KeepDrafts` | comfyui_extension/comfyui-image-frontend-interface/lora_management.py:1012-1025 | Keeps old and new bytes of every file of every target and touches nothing else at any crash point |
| `LoraManagement.Manager.KeepOperation` | comfyui_extension/comfyui-image-frontend-interface/lora_management.py:1012-1040 | Keeps the bytes of all drafts before it records the operation; wherever it stops, a recorded operation is complete |
| `LoraManagement.Manager.Intact` | comfyui_extension/comfyui-image-frontend-interface/lora_management.py:1099-1107 | Answers yes if and only if both generations of every file are journaled and every live file holds one of them |
| `LoraManagement.Manager.Commit` | comfyui_extension/comfyui-image-frontend-interface/lora_management.py:1089-1138 | Refuses exactly when a commit is not allowed, without effect; unless a step fails, an allowed commit of files that match their revisions succeeds; success means every file is new and verified and the weight of an installation has the declared digest; every other disk, and every disk in between, is that of a commit cut short, possibly followed by a rollback |
| `LoraManagement.Manager.PublishAll` | comfyui_extension/comfyui-image-frontend-interface/lora_management.py:1123-1138 | Announces, writes the three files of each target manifest last, compares the revision after each target, and rolls back when that or a write fails |
| `LoraManagement.Manager.Rollback` | comfyui_extension/comfyui-image-frontend-interface/lora_management.py:1161-1221 | Unless a step fails, succeeds exactly when a rollback is allowed; success means every file is old, a removed weight is back and an installed one is gone from library and uploads; every other disk, and every disk in between, is that of a rollback cut short, with or without the record that a repair is required |
| `LoraManagement.Manager.Restore` | comfyui_extension/comfyui-image-frontend-interface/lora_management.py:1201-1221 | Restores the files, then drops an installed weight, then records; a failing step before the record leaves the repair mark |
| `LoraManagement.Manager.Quarantine` | comfyui_extension/comfyui-image-frontend-interface/lora_management.py:1140-1159 | Refuses exactly when the removal is not committed or, on the writer, when something else needs the weight or it is missing; success means the weight has moved and nothing else changed |
| `LoraManagement.Manager.Finalize` | comfyui_extension/comfyui-image-frontend-interface/lora_management.py:1223-1243 | Refuses exactly when the operation is not ready; success means exactly its own kept bytes and its quarantined weight are gone |
| `LoraManagement.HandlerStatesAreSound` | comfyui_extension/comfyui-image-frontend-interface/lora_management.py:1125-1136 | Every disk in which a commit, its rollback or a rollback can stop satisfies the crash-atomicity invariant |
| `HandlerAnswers.CommitAcceptedExactly` | comfyui_extension/comfyui-image-frontend-interface/lora_management.py:1089-1122 | In every reachable state a commit is accepted if and only if the journal says committed, or prepared or committing, no lease is held, and for an installation the library file has the declared digest or, on the writer and with no library file, the upload has |
| `HandlerAnswers.CommitDoneMeans` | comfyui_extension/comfyui-image-frontend-interface/lora_management.py:1108-1138 | An accepted commit leaves every file new, other files alone, and the weight of an installation in the library with the declared digest |
| `HandlerAnswers.RollbackAllowedExactly` | comfyui_extension/comfyui-image-frontend-interface/lora_management.py:1177-1200 | A rollback is accepted if and only if the operation is unknown, rolled back, or not finalized with intact files and no obstacle for a removed weight |
| `HandlerAnswers.RollbackDoneMeans` | comfyui_extension/comfyui-image-frontend-interface/lora_management.py:1193-1221 | An accepted rollback leaves every file old, a removed weight back in the library, an installed one gone, and all other weights where they are |
| `HandlerAnswers.RefusedRollback` | comfyui_extension/comfyui-image-frontend-interface/lora_management.py:1188-1220 | A refused rollback leaves only the record that a repair is required, and nothing for a finalized operation |
| `HandlerAnswers.QuarantineMeans` | comfyui_extension/comfyui-image-frontend-interface/lora_management.py:1140-1159 | A quarantine is accepted if and only if the removal is committed and, on the writer, nothing else needs the weight and it is there; then the weight has moved |
| `HandlerAnswers.FinalizeMeans` | comfyui_extension/comfyui-image-frontend-interface/lora_management.py:1223-1243 | A finalize is accepted if and only if the operation is quarantined or committed without a weight to retire; then exactly its kept bytes and its quarantined weight are gone |
| `PreparedRuns.PreparedRunsAreSafe` | comfyui_extension/comfyui-image-frontend-interface/lora_management.py:1012-1040 | From every disk in which a prepare may stop with its operation recorded, every run of the handlers is atomic and, on the writer instance, every prudent one leaves no dangling weight |
| `PreparedRuns.PrepareIsExclusive` | comfyui_extension/comfyui-image-frontend-interface/lora_management.py:931-957 | Wherever a prepare stops, it did what the exclusion of leases assumes |
| `Leases.LeasesExclude` | comfyui_extension/comfyui-image-frontend-interface/lora_management.py:546-609 | In every run of acquire, renew, release, prepare and handler calls, with any clock whatever, no publication has both a lease file and an operation that is prepared and neither rolled back nor finalized |
| `Leases.CommitIsNeverLeased` | comfyui_extension/comfyui-image-frontend-interface/lora_management.py:1096-1098 | In every reachable state the lease check of a commit of a prepared operation finds no lease |
| `Leases.HandlerClaimsNothing` | comfyui_extension/comfyui-image-frontend-interface/lora_management.py:1091-1094 | No handler wakes up an operation that was given up or finished, or changes its targets |
| `Leases.PublisherLocks.Locked` | comfyui_extension/comfyui-image-frontend-interface/lora_management.py:546-557 | A lease holds while it has not expired; looking at an expired one removes its file and nothing else |
| `Leases.PublisherLocks.AnyLocked` | comfyui_extension/comfyui-image-frontend-interface/lora_management.py:1096-1098 | When no source is held, none of them has a lease file any more; only lease files of expired leases are removed; prepare changes the lease files as in the runs of `Leases.LeasesExclude` |
| `Leases.PublisherLocks.Acquire` | comfyui_extension/comfyui-image-frontend-interface/lora_management.py:564-588 | Granted if and only if no lease is held and no operation is underway for the source; the state changes as in the runs of `Leases.LeasesExclude`; the lease then holds for exactly 600 seconds |
| `Leases.PublisherLocks.Renew` | comfyui_extension/comfyui-image-frontend-interface/lora_management.py:590-599 | Renewed if and only if the file exists with this token, expired or not; the lease then holds for exactly 600 seconds |
| `Leases.PublisherLocks.Release` | comfyui_extension/comfyui-image-frontend-interface/lora_management.py:601-609 | Released if and only if there is no lease file or it has this token |
| `Guards.NoDeadlock` | comfyui_extension/comfyui-image-frontend-interface/lora_management.py:530-536 | For any number of operations with arbitrary source sets and any interleaving, as long as one is unfinished one can take its next lock or finish |
| `Guards.ReachedIsOrderly` | comfyui_extension/comfyui-image-frontend-interface/lora_management.py:518-536 | In every reachable state each operation holds a prefix of its increasing lock list and no lock is held twice |
| `Guards.SortedIsIncreasing` | comfyui_extension/comfyui-image-frontend-interface/lora_management.py:534 | The acquisition order is strictly increasing and covers exactly the requested sources |
| `Guards.UnorderedCanDeadlock` | comfyui_extension/comfyui-image-frontend-interface/lora_management.py:532 | Two operations taking two locks in opposite orders are stuck, so the order is what prevents deadlock |
| `Admission.Admission.Drain` | backend/app/admission.py:40-53 | One pass over the snapshot admits exactly the waiters that the pass function admits, keeps both counters truthful and within their limits, and leaves no admissible waiter |
| `Admission.PassSettles` | backend/app/admission.py:43-53 | One pass reaches the fixpoint: afterwards no waiter is admissible and both limits hold |
| `Admission.PassKeepsOrder` | backend/app/admission.py:43-47 | A waiter left behind by a later arrival is media, the later one is not, and all media places are taken at that moment |
| `Admission.GrantedInOrder` | backend/app/admission.py:43-53 | Over whole histories: whoever still waits while a later arrival has been admitted is media and the later one is not |
| `Admission.Admission.ReservedCapacity` | backend/app/admission.py:44-47 | A request that is not media waits only while all places are taken, of which media hold at most the sub-limit |
| `Admission.Admission.Arrive` | backend/app/admission.py:55-62 | Refused if and only if the queue is closed or full; otherwise queued last and drained |
| `Admission.Admission.Release` | backend/app/admission.py:73-82 | Frees a place only if one is held, removes a waiting ticket, drains; a second release changes nothing |
| `Admission.Admission.Close` | backend/app/admission.py:94-98 | Fails exactly the waiting tickets, each once, and leaves the counters and all other tickets alone |
| `Admission.Admission.Acquire` | backend/app/admission.py:55-71 | A request with room is let in at once; otherwise it returns a ticket that holds a place, or fails with its ticket released, whatever other requests do meanwhile and even when grant and timeout coincide; within its time it fails only ungranted |
| `Admission.Admission.Serve` | backend/app/admission.py:137-183 | However a request ends (refused, abandoned, answered once or several times, failing), its ticket no longer holds a place and all invariants hold; with room and a client that stays it is answered unless the application fails |
| `LoraStack.ValidateLoraStack` | backend/app/domain/lora_stack.py:14-74 | Accepts exactly the complete ordered permutations of the published items with every strength in range and on a step, and returns them unchanged |
| `LoraStack.CheckEntries` | backend/app/domain/lora_stack.py:53-74 | Accepts exactly the entries that name known items at most once with valid strengths |
| `LoraStack.CheckItems` | backend/app/domain/lora_stack.py:21-50 | Accepts exactly the item lists with valid public fields and distinct ids |
| `LoraStack.AllOfThem` | backend/app/domain/lora_stack.py:51-58 | With equal lengths, naming known items at most once is the same as being a permutation |
| `LoraStack.CompiledStackRuns` | backend/app/domain/publication.py:759-786 | A stack accepted at compile time is accepted again by the runtime node whose catalog is the frozen one, and every entry is for an item of that catalog |
| `LoraStack.ApplyStack` | comfyui_extension/comfyui-image-frontend-interface/nodes.py:914-957 | Succeeds if and only if catalog and value are valid; then the patches added are, in order and one for one, the nonzero entries, each with its strength and the file of the catalog item that has its id; a loader is created only if some entry is nonzero |
| `LoraStack.AppliedMeans` | comfyui_extension/comfyui-image-frontend-interface/nodes.py:942-957 | Applying a stack adds exactly the patches of its nonzero entries, each with the file of the item with that id |
| `LoraStack.AppliedInOrder` | comfyui_extension/comfyui-image-frontend-interface/nodes.py:950-957 | Application is a fold: two lists in a row are their concatenation |
| `LoraStack.ZeroIsIdentity` | comfyui_extension/comfyui-image-frontend-interface/nodes.py:950-952 | A stack of zeros leaves the model untouched |
| `Recompile.RecompileIsIdempotent` | backend/app/domain/compiler.py:100-252 | For every contract whose seed ranges are below 10 to the 28, every graph and every request: if compilation succeeds, compiling its effective controls again succeeds with any seed resolver and gives the same effective controls, seeds, graph, uploads and prompt |
| `CheckerSoundness.AcceptedRecompiles` | backend/app/domain/publication.py:58-59 | Every accepted interface whose seed bounds are integers of strict JSON meets that condition, so what it compiles to recompiles to itself |
| `Recompile.DrawnSeedComesBack` | backend/app/domain/compiler.py:270-295 | Every seed drawn in steps of one comes back unchanged if and only if its range is below 10 to the 28 |
| `Recompile.ResolvedSeedIsInSteps` | backend/app/domain/compiler.py:254-285 | A resolved seed, drawn at random or given, is within its bounds and on a step |
| `Recompile.ResolvedSeedIsStable` | backend/app/domain/compiler.py:254-295 | A resolved seed given back as text resolves to itself without asking the resolver |
| `Recompile.FinalAgain` | backend/app/domain/compiler.py:104-160 | Every input comes out of the second compilation as it came out of the first, including strengths suggested by a choice |
| `WorkflowCompiler.CompileRequest` | backend/app/domain/compiler.py:48-252 | The three loops give exactly the specified result for every contract, graph, request and resolver; a success is right control by control, a report of field errors names exactly inputs at fault, and unknown controls are reported exactly when the request names one |
| `CompiledResults.CompiledMeans` | backend/app/domain/compiler.py:100-252 | In a compiled result every control has the given value, its default, a seed in range and on a step, or the strength that the selected option suggests; in the graph a seed is the recorded integer, an image a reference to the recorded upload, a stack its encoding and everything else its value, the last binder winning; and the prompt is the effective first positive prompt |
| `CompiledResults.EndsMeans` | backend/app/domain/compiler.py:104-160 | What a single input ends up with: its own value, nothing, or the default strength of the selected option, which falls back to the declared default |
| `CompiledResults.ResolvedMeans` | backend/app/domain/compiler.py:254-295 | A resolved seed is the drawn slot above the minimum, or the given or saved integer in range and on a step |
| `CompiledResults.FieldErrorsMean` | backend/app/domain/compiler.py:115-168 | Reported are every input at fault on its own account and otherwise only strengths for which the selected option suggests an inadmissible value |
| `CompiledResults.PatchedShows` | backend/app/domain/compiler.py:169-224 | A patched graph shows at every target the last value bound to it in the form of its type, or the frozen value |
| `CompiledResults.PatchedExactly` | backend/app/domain/compiler.py:189-224 | Patching succeeds if and only if every control with a value has a form and bindings that all can be patched in the frozen graph |
| `CompiledResults.InputsMean` | backend/app/domain/compiler.py:77-90 | A contract is usable exactly when its inputs are objects with different text ids, and then these are its inputs, in order |
| `CompiledResults.KindMeans` | backend/app/domain/publication.py:500-509 | A publication is a text publication exactly when its first final output is a text |
| `WorkflowCompiler.FillEffective` | backend/app/domain/compiler.py:104-139 | Fills effective controls, seeds and errors input by input and stops at the first contract or resolver error |
| `WorkflowCompiler.LetChoicesSpeak` | backend/app/domain/compiler.py:141-160 | Overrides exactly the strengths that follow a selected choice and were not supplied |
| `WorkflowCompiler.PairByName` | backend/app/domain/compiler.py:391-397 | Pairs every choice with the number named after it when their roles agree |
| `WorkflowCompiler.PairByRole` | backend/app/domain/compiler.py:399-419 | Adds exactly the pairs of roles that have one unmatched choice and one unmatched number |
| `WorkflowCompiler.PatchGraph` | backend/app/domain/compiler.py:169-224 | Patches a copy binding by binding, failing exactly when some control cannot be patched in the frozen graph; every target shows the last value bound to it in the form of its type, or is as frozen |
| `WorkflowCompiler.CheckValue` | backend/app/domain/compiler.py:298-348 | Returns the value unchanged if and only if the declaration admits it, and raises a contract error if and only if the declaration is to blame |
| `Compiler.ValidatedMeans` | backend/app/domain/compiler.py:298-348 | Accepted are exactly: texts in the limit, flags, whole or finite numbers in range that lie a whole number of steps above the minimum, offered choices of a well-formed list, one asset id of 1 to 255 characters, complete permutations of the stack; blamed are exactly unknown types, malformed choices, incomplete stacks, and numbers whose bounds are none or whose steps cannot be counted up to the value |
| `Values.AlignedMeans` | backend/app/domain/compiler.py:432-437 | A remainder can be taken and is zero if and only if the rounded difference is a whole number of steps below 10 to the 28 |
| `Values.RoundedMonotone` | backend/app/domain/compiler.py:433 | Rounding to 28 significant digits keeps the order |
| `Values.RoundedExact` | backend/app/domain/compiler.py:433 | A difference of up to 28 significant digits is not changed by rounding |
| `Values.RoundedIsClose` | backend/app/domain/compiler.py:433 | Rounding changes a difference by at most half a unit of its last digit |
| `Values.HalfEvenMeans` | backend/app/domain/compiler.py:433 | Rounding takes the nearest integer, and the even one of two |
| `Compiler.CompanionIsUnique` | backend/app/domain/compiler.py:375-419 | A number follows at most one choice |
| `Values.ParsePrint` | backend/app/domain/compiler.py:288-295 | A printed integer is canonical and reads back as itself |
| `Values.MultipleMeans` | backend/app/domain/compiler.py:432-437 | A zero remainder means being an integer multiple of the step |
| `CheckerSoundness.AcceptedNeverBreaks` | backend/app/domain/publication.py:535-544 | For every interface the checker accepts: no request and no resolver answer makes compilation raise a contract error, if and only if it is a text publication or the type of its positive prompt is string, choice or seed, and the distance between the bounds of every number can be divided by its step within 28 digits |
| `CheckerSoundness.NoContractError` | backend/app/domain/publication.py:512-632 | The sound half: with a prompt that yields text and countable steps, every request succeeds or gets per-field or resolver errors |
| `CheckerSoundness.SomeRequestBreaks` | backend/app/domain/publication.py:535-544 | The other half for the prompt: a request, built from the declarations, that fails with a contract error |
| `CheckerSoundness.MaximumRequestBreaks` | backend/app/domain/publication.py:923-946 | The other half for the numbers: the maximum of any number whose steps cannot be counted fails with a contract error |
| `CheckerSoundness.OnlyNumbersAreUncountable` | backend/app/domain/publication.py:1426-1430 | Integers and seeds whose bounds strict JSON allows always have countable steps |
| `AcceptedFlaws.NumberPromptIsAccepted` | backend/app/domain/publication.py:535-544 | An accepted image publication whose positive prompt is an integer |
| `AcceptedFlaws.FineNumberIsAccepted` | backend/app/domain/publication.py:923-946 | An accepted image publication with a number from 0 to 1e30 in steps of 1e-05 |
| `CheckerSoundness.StoredIsSound` | backend/app/domain/publication.py:662-741 | What is stored for an accepted input: bindings that target existing inputs of parameter nodes of the right class, and bounds, choices and a default that validation never blames |
| `Checker.ValidateInterface` | backend/app/domain/publication.py:512-632 | Accepts exactly the interfaces that meet the declarative definition, and stores every input and output as declared |
| `Checker.StoredAsDeclared` | backend/app/domain/publication.py:652-741 | Each stored input has the declared fields of its type with resolved bindings and nothing else, a seed default may come from its value, and each stored output has the declared id, role and type |
| `InterfaceRules.InterfaceMeans` | backend/app/domain/publication.py:512-632 | The checker accepts exactly the interfaces that keep the rules, written out with their constants: 1 to 256 inputs and outputs with different ids, one final output, and one positive prompt, or for a text publication one required input and only simple ones |
| `InterfaceRules.TypeMeans` | backend/app/domain/publication.py:690-741 | What each type has to declare: bounds, steps and a default on a step, options, a stack of zeros that its frozen nodes share |
| `InterfaceRules.BindingMeans` | backend/app/domain/publication.py:949-1018 | A binding is accepted exactly when it names an existing input of a node that the type may drive, under the name that node wants, and agrees with the runtime |
| `Checker.ValidateInputs` | backend/app/domain/publication.py:525-538 | Accepts exactly the input lists with valid, uniquely named inputs and counts positive prompts and required inputs |
| `Checker.ValidateInput` | backend/app/domain/publication.py:635-741 | Accepts exactly the inputs that meet the definition of their type |
| `Checker.ValidateBindings` | backend/app/domain/publication.py:949-1018 | Accepts exactly the lists of 1 to 32 distinct, resolvable, class-correct targets |
| `Checker.ChoiceContract` | backend/app/domain/publication.py:871-920 | Accepts exactly the lists of 1 to 100 valid choices with distinct values that contain the default |
| `Checker.LoraContract` | backend/app/domain/publication.py:744-789 | Accepts exactly the stacks with a valid all-zero default that agree with every frozen node |
| `Checker.ValidateOutputs` | backend/app/domain/publication.py:559-602 | Accepts exactly the output lists of one kind with unique ids and one final output |
| `GraphFrame.LastBinderWins` | backend/app/domain/compiler.py:169-224 | Every input of the compiled graph holds what its last binder wrote, or its frozen value; nodes keep classes, other fields and input names |
| `GraphFrame.CompileChangesOnlyParameters` | backend/app/domain/compiler.py:189-224 | For an accepted contract, compilation changes only inputs of parameter nodes |
| `SeedAdapter.GateIsSound` | backend/app/domain/publication.py:427-430 | A text source that passed the concrete-seed gate, compiled for any request, never makes the adapter report a mismatch |
| `SeedAdapter.ValidateConcreteSeeds` | backend/app/domain/publication.py:1298-1339 | Accepts exactly the graphs whose recognized nodes all carry a literal seed in range |
| `SeedAdapter.AdaptSeed` | backend/app/domain/prompt_generation.py:75-118 | Succeeds if and only if every recognized unbound node carries a literal and the resolver stays in range; changes exactly those seed inputs, to in-range values, and records them; all of them can be read back if and only if nodes behind the first that share a key were given the same seed |
| `SeedAdapter.FreshMeans` | backend/app/domain/prompt_generation.py:60-97 | The patched nodes are the recognized nodes that no published seed owns, each once and in order |
| `SeedAdapter.RecordedFrame` | backend/app/domain/prompt_generation.py:107-117 | Only keys of patched nodes are recorded; all other recorded seeds stay |
| `SeedAdapter.DeclaredSeedBindings` | backend/app/domain/prompt_generation.py:40-58 | Collects exactly the targets bound by seed parameters |
| `SeedAdapter.KeysAreNotPublic` | backend/app/domain/prompt_generation.py:111-116 | Recorded keys never collide with public parameter ids or with the retained key |
| `SeedAdapter.AsciiLowers` | backend/app/domain/prompt_generation.py:111-115 | Lower-casing the ASCII letters meets what is assumed of lower-casing |
| `SeedAdapter.KeysCollide` | backend/app/domain/prompt_generation.py:111-116 | Two ASCII node ids share a recorded key if and only if they agree up to case |
| `SeedAdapter.SeedsAreRecorded` | backend/app/domain/prompt_generation.py:107-117 | For any lower-casing, nodes and seeds: every seed can be read back from the record if and only if nodes behind the first that share a key were given the same seed |
| `SeedAdapter.AlwaysRecorded` | backend/app/domain/prompt_generation.py:107-117 | Whatever the resolver answers, all seeds can be read back if and only if no two nodes behind the first share a key |
| `SeedAdapter.AdaptTwins` | backend/app/domain/prompt_generation.py:98-117 | A graph with three samplers, two of which differ by case: the adapter patches all three and loses a seed unless the two are equal |
| `Events.EveryRunHolds` | backend/app/api/events.py:120-169 | The stream's invariant holds for every interleaving of commits, publications, ephemeral events, subscription, replay and delivery |
| `Events.OnceInOrder` | backend/app/api/events.py:131-169 | At any time each durable event was sent at most once, in increasing order and above the resume id, and no ephemeral item that left the queue was skipped |
| `Events.CompleteExactly` | backend/app/api/events.py:96-109 | A quiet stream has sent every durable event above the resume id exactly once if and only if its queue lost none above the mark and at most 1000 of them had been published before it subscribed |
| `Events.BacklogIsLost` | backend/app/api/events.py:96-109 | Every backlog of more than 1000 events, and nothing else, ends in a quiet stream that has not sent everything |
| `Events.OverflowIsLost` | backend/app/api/events.py:120-169 | Every burst of more than 200 events before the subscriber takes one ends in a quiet stream that has not sent everything |
| `Events.WithinLimitsNothingIsLost` | backend/app/api/events.py:121-136 | With a backlog within the replay limit and a queue that never overflows nothing is lost |
| `Events.EventStream.Put` | backend/app/services/event_broker.py:17-22 | A full queue drops the offered item silently and keeps everything else |
| `Events.EventStream.Replay` | backend/app/api/events.py:126-136 | Sends the loaded rows in order and raises the mark to the last one |
| `Events.EventStream.Deliver` | backend/app/api/events.py:157-169 | Takes one item and sends it unless it is durable and at or below the mark |
| `JsonTree.ValidateJsonTree` | backend/app/domain/publication.py:239-286 | The explicit stack accepts exactly the trees whose number of values, nesting, integers, numbers, texts and keys meet the recursive definition |
| `JsonTree.SoundEverywhere` | backend/app/domain/publication.py:247-286 | An accepted tree holds no unsupported value and nothing too deep, anywhere |
| `JsonTree.UnsoundSomewhere` | backend/app/domain/publication.py:247-286 | A tree that is not sound holds such a value |
| `Deployment.Host.Transaction` | scripts/production-update.py:776-964 | Whichever step fails, and whatever the receipt said before, its claim is true: rolled back, original preserved or operator required; success means the verified new configuration and the right control files are in place; unless a command fails a sound deployment completes, and a single failing command never needs the operator |
| `Deployment.Host.Prepare` | scripts/production-update.py:797-882 | Before the cutover the compose file is never written, the original container stays, an installation has written its own control files, and after an update's preparation the archive is the stopped database |
| `Deployment.Host.InstallFiles` | scripts/production-update.py:811-839 | Each of the two scripts and the configuration gets its own content |
| `Deployment.Host.CutOver` | scripts/production-update.py:883-924 | From the first write of the compose file on: success means the new image and configuration were verified and recorded; in any case the rollback archive and both image tags survive retention |
| `Deployment.Host.Recover` | scripts/production-update.py:925-964 | Chooses the recovery branch by what was reached and claims only what it verified; unless a command fails it recovers without the operator |
| `Deployment.Host.RollBack` | scripts/production-update.py:931-948 | Restores the database from the archive, every control file and the original image |
| `Deployment.Host.Preserve` | scripts/production-update.py:949-955 | Restarts and verifies the original without ever writing the compose file |
| `Deployment.Host.StoppedArchive` | scripts/backup-production-bind.py:249-294 | Success means the application is stopped and the archive is its database; otherwise one restart was attempted |
| `Deployment.Host.RestoreDatabase` | scripts/production-update.py:493-536 | Success means the database is the archived one |
| `Deployment.Host.RestoreFiles` | scripts/production-update.py:539-544 | Success means every listed file has its saved content; others are untouched |
| `Deployment.Host.PruneArchives` | scripts/production-update.py:611-659 | Removes only regular rollback archives of other releases and never touches the kept one |
| `Deployment.Host.PruneRelease` | scripts/production-update.py:637-657 | Removes every regular rollback archive of one release that can be removed, counts them, and nothing else |
| `Deployment.Host.PruneImages` | scripts/production-update.py:681-722 | Every removed tag was fingerprinted and unprotected by reference and by image |
| `Deployment.Host.EnforceRetention` | scripts/production-update.py:739-756 | Never fails, keeps this release's archive and all protected tags |

## Left out

- Upload streaming and safetensors parsing: `stage` is a staged journal without targets and an uploaded weight that precede prepare.
- Sorting and shape checks of a prepare request: the targets arrive as distinct, safe sources; order does not matter to any property.
- Journals written before multi-source operations, which keep root files instead of target directories.
- Scanning other publications, authoring workflows and the native queue: the Boolean `clear`, before preparing a removal and before quarantine.
- Path confinement, symbolic links, file permissions, fsync and temporary files: an atomic write is one step.
- Leases.PublisherLocks.Acquire: does not model unreadable lease or journal files, which make the source fail instead of answer.
- Concurrency inside a handler: calls are assumed atomic up to a stop, as they are in the one event loop that serves them; prepare, commit and acquire also hold source guards against other processes, while rollback, quarantine, finalize, renew and release hold none.
- Admission.Admission.Serve: does not model body buffering, error responses and wait-time statistics, which do not affect tickets; ticket objects are entries of a growing list and a reference is a number.
- LoraStack.ApplyStack: does not model the length limits of the two JSON texts, which depend on how numbers are printed.
- Checker.ValidateInput: leaves out labels, descriptions, groups, order, UUIDs and media limits, which only reject more and which compilation never reads.
- Checker.ValidateOutputs: leaves out connections, publisher nodes and the native inventory, which only reject more.
- WorkflowCompiler.CompileRequest: leaves out message texts, hashes and the refusal of presets and caller-selected outputs; a contract number that is not finite counts as a broken contract, and conversions that overflow a float are not modelled.
- SeedAdapter.AdaptSeed: the numeric-aware node order and the lower-casing of keys are parameters; of lower-casing it is only used that ASCII text is lower-cased letter by letter and that the class name in front of a key is.
- Values.Rounded: the exponent range of decimals, which no finite float leaves.
- Events.EveryRunHolds: one owner and one subscriber; authentication, keep-alives and the text format of a message are left out, and publications happen in commit order.
- Deployment.Host.Transaction: the steps before the first guarded one, fingerprints, disk-space checks and edits by third parties are commands that may fail; only the recovery claim of the receipt is modelled.
- HTTP routes, schemas, database models, backups other than the stopped archive, status pages, image pools, preferences and scoring: plumbing or easy beside the above.
