# Reporting server: models and proofs

This project models the parts of the reporting server that carry its hard promises, and
proves those promises in Dafny.

* **Data contracts** (`Json`, `Contract*`). A Typst source is lexed, the accesses to report
  data found in it become a tree of paths, a sample is completed along that tree, and a
  schema is inferred from sample and tree. What a source says is stated apart from the
  scan, as a document of declarations, bindings, loops and uses; every source is one, and
  the scan records exactly what the document means. The proofs give schemas a meaning: a schema
  *describes* a set of values at a tree node, joining two schemas describes the union,
  and a description is unique. From that follow the laws of joining, the safety of every
  recorded access, and stability of the whole analysis.
* **Storage migrations and reads** (`Migration*`, `StorageReads`, `ArtifactWrites`). A leased work
  queue that copies objects between profiles under a concurrency cap and a start rate.
  Every transaction is one atomic function of the rows; dispatchers, workers with late or
  repeated deliveries, operators and other writers interleave freely, and transactions may
  use a start time that is already past.
* **Report jobs** (`Job*`). Attempts, leases and the attempt log; the transactional outbox
  with claims by several dispatchers; recovery; retries and their lineage. `JobDeliveries`
  adds what deliveries do with the stores: they outlive their leases and may store late.
* **Templates** (`Template*`). Versions, their assets, and the approve and publish handlers, whose
  steps interleave with edits, uploads, discarded drafts and each other.
* **API keys** (`ApiKeys`). The printed form of a key and its parser, over base64url
  (sections 3.5 and 5 of RFC 4648).

The components meet: the contract of every approved version is the analysis of its own
source and sample (`TemplateRuns.ApprovedMeansChecked`), the data of every job conforms
to the schema of the version it is pinned to (`JobRuns.JobDataConforms`), and data that
conforms to an analysed contract can be followed along every access written in the source
(`ContractDocument.ContractIsSafe`). `RenderingSafety.EveryWrittenAccessIsSafe` puts the
three together, over histories in which publishing a version is what lets jobs use it.

Each imperative part has three layers: a specification on values (`*Model`), a protocol of
atomic steps with its invariants (`*Protocol`, `*Safety`, `*Runs`), and classes whose methods
update fields and loop as the source does (`*Repository`, `*Worker`, `*Dispatcher`, `JobQueue`), each
method proved equal to the specification and, in terms of the rows alone, to have the effect
promised (for claims in `MigrationClaims`). The migration worker, both dispatchers, the
report worker and the approve and publish handlers are moreover proved to be runs of the
protocol, step by step, so the invariants hold of what they do in any interleaving.

Results that are negative or conditional, each with its exact condition where there is one:

* The look-ahead for escapes slices past the end of the source exactly when a literal is
  unclosed, contains an escape, and the source does not end in a lone backslash
  (`ContractLexer.SlicesBeyondEndWhen`).
* Comments can be blanked without effect exactly when the source leaves none open
  (`ContractLexer.CommentBlindness`, `ContractAnalysis.ContractIgnoresComments`).
* A sample is rejected by its own schema exactly when it lacks the shape of the tree or
  somewhere in it an array meets something else at a node that expects neither
  (`ContractTheorems.SelfSatisfaction`).
* A canceled migration does not stay canceled: the last statement of a resume completes it,
  exactly when all its items are finished (`MigrationLimits.StepKeepsEnded`,
  `MigrationRuns.CanceledMayBeCompleted`).
* A lease fences off other workers but not older attempts of the same worker, neither when
  they give up nor when they complete (`JobRuns.FencesAttemptExactlyWhen`,
  `JobRuns.StaleCallClosesNewerAttempt`, `JobDeliveryRuns.StaleDeliveryCompletesNewerAttempt`).
* A completed report stays readable for ever exactly when no delivery of its job is still
  to store (`JobDeliveryRuns.ReadableForEverExactlyWhen`); a delivery that outlived its lease
  can store over it (`JobDeliveryRuns.LateStoreRuinsReport`).
* Storing or recording an artifact again is harmless exactly when it repeats what is
  recorded (`ArtifactWrites`).
* A draft that is discarded and created again while it is being checked can be approved
  with assets nobody rendered (`TemplateRuns.RecreatedDraftEscapes`).
* The base64url decoder alone accepts several texts for one secret; the parser does not
  (`ApiKeys.EncodeDecodeExactlyWhen`, `ApiKeys.AcceptsExactlyPrintedKeys`).

Where code and documentation differ the code is followed. The query that pauses a migration
names its parameter but is passed none; it is modelled by what it is meant to do.

## Model

| member | source | states |
|---|---|---|
| Json.TypeMatchesExactly | internal/contract/contract.go:658-683 | the type tests accept exactly a value's own type, except that integers are also numbers; an integer is a number written with neither point nor exponent |
| ContractSchema.MergeSchemas | internal/contract/contract.go:513-553 | the merge loop over two schemas computes the join: properties united, those in both joined, the left side's required fields kept, item schemas joined, and the union of the types where the shapes differ |
| ContractValidate.ConformsIffNoErrors | internal/contract/contract.go:594-647 | the declarative conformance relation holds exactly when a complete validation has nothing to report |
| ContractValidate.ValidateAt | internal/contract/contract.go:594-647 | the recursive walk reports exactly the errors of the reference error set and ends only within the depth bound; it gives up only beyond that bound or with too many reports, and fails only on an array whose schema has no item schema |
| ContractValidate.MismatchesAreReported | internal/contract/contract.go:594-647 | types are reported expected at a place if and only if they are those of the schema found there and the value found there has none of them |
| ContractValidate.MissingAreReported | internal/contract/contract.go:594-647 | a place is reported missing if and only if, following it through data and schema, an object lacks the field it names and the schema there requires it |
| ContractValidate.Validate | internal/contract/contract.go:573-592 | data is accepted exactly when it conforms and the walk stays within the depth bound; a complete report names exactly the places where value and schema do not match and the fields that are missing, each under its own name, and no report names anything else |
| ContractTree.TreeCoversEveryPath | internal/contract/contract.go:101-120 | every recorded path can be found in the tree built from all of them, with its array flag and its required fields, whatever was inserted after it |
| ContractTree.TreeStemsFromPaths | internal/contract/contract.go:101-120 | a node, a required flag or an array flag is in the tree if and only if some recorded path put it there |
| ContractTree.SafeFollows | internal/contract/contract.go:101-120 | a value with the shape of the tree can be followed along every path the tree covers, over every element at array nodes |
| ContractTree.MergeObject | internal/contract/contract.go:333-371 | the loop that fills in missing fields computes the completed sample |
| ContractTree.MergeChild | internal/contract/contract.go:333-371 | one round of that loop completes one field: the first item of an array, an object in place, or what is missing |
| ContractTree.CompletionKeeps | internal/contract/contract.go:333-371 | completion replaces nothing that was in the sample, except empty arrays at array nodes, and changes only the first item of other arrays |
| ContractTree.CompletionFills | internal/contract/contract.go:333-371 | after completion nothing the tree expects is missing, in objects at any depth and in the first item of every array |
| ContractTree.CompletionIdempotent | internal/contract/contract.go:333-371 | completing a completed sample changes nothing |
| ContractInference.JoinDescribesUnion | internal/contract/contract.go:513-553 | if one schema describes some values of a tree node and another one others, their join describes all of them together |
| ContractInference.DescribedOnce | internal/contract/contract.go:373-438 | a set of values has at most one describing schema at a tree node |
| ContractTheorems.InferenceDescribes | internal/contract/contract.go:373-501 | the schema inferred for a value is the one that describes that value at its node |
| ContractTheorems.FoldDescribes | internal/contract/contract.go:377-395 | the item schema of an array describes the set of its items |
| ContractTheorems.FoldSucceeds | internal/contract/contract.go:468-486 | item inference succeeds exactly when it does for every item |
| ContractTheorems.InferredExactlyWhen | internal/contract/contract.go:373-501 | inference gives up if and only if some place it comes to, in the value or in what the tree expects of it, lies deeper than the bound |
| ContractTheorems.JoinIdempotent | internal/contract/contract.go:513-553 | merging a generated schema with itself gives the same schema |
| ContractTheorems.JoinCommutes | internal/contract/contract.go:513-553 | merging schemas generated at one node does not depend on the order, and the result is again generated there |
| ContractTheorems.JoinAssociates | internal/contract/contract.go:513-553 | merging three schemas generated at one node does not depend on the grouping |
| ContractTheorems.ItemSchemaIgnoresOrder | internal/contract/contract.go:377-395 | arrays with the same items in any order and with any repetition get the same item schema, or fail alike |
| ContractTheorems.ConformingIsSafe | internal/contract/contract.go:373-438 | data that conforms to a schema describing any values at a node has the shape the node demands: joins never weaken this |
| ContractTheorems.UnionsComeFromMixing | internal/contract/contract.go:513-553 | a schema is free of type unions that mention "array" if and only if the values it describes nowhere mix arrays with others at a node that expects neither |
| ContractTheorems.AccessSafety | internal/contract/contract.go:101-120 | data accepted by the inferred schema can be followed along every recorded path without breaking |
| ContractTheorems.SelfSatisfaction | internal/contract/contract.go:373-501 | a sample conforms to its own schema if and only if it has the shape of the tree and nowhere in it, over all items of its arrays, does an array meet something else where the tree expects neither |
| ContractTheorems.CompletionKeepsSchema | internal/contract/contract.go:333-371 | inference on the completed fields gives the schema of the fields as they were |
| ContractTheorems.CompletionKeepsDefaultSchema | internal/contract/contract.go:503-511 | what completion adds for a missing field has the schema that inference gives to the missing field's default |
| ContractTheorems.AnalysisIsStable | internal/contract/contract.go:121-137 | completing and inferring again from the analysis's own sample gives the same sample and schema |
| ContractTheorems.SampleIsVisited | internal/contract/contract.go:594-647 | validating the sample against the schema inferred from it never exceeds the depth bound, though the schema can be one level deeper than inference went |
| ContractTheorems.InferredIsWellFormed | internal/contract/contract.go:373-501 | inferred schemas require only properties they have and name at least one type |
| ContractLexer.Lex | internal/contract/contract.go:140-222 | the lexing loop computes the specified token list, error or failure |
| ContractLexer.TokensAreFaithful | internal/contract/contract.go:140-222 | offsets strictly increase and the texts of identifiers and symbols are exact slices of the source |
| ContractLexer.NothingIsLeftOut | internal/contract/contract.go:140-222 | every byte outside spaces and comments lies in a token; a literal's token has exactly the text the literal says: its characters if it has no escape, otherwise what all of it decodes to or, if that fails, its characters without the escaping backslashes; identifiers are as long as they can be, symbols are single bytes |
| ContractLexer.LiteralSaysText | internal/contract/contract.go:179-209 | whatever closes a literal, its text is what the literal says, read off the source between its quotes alone |
| ContractLexer.UnescapedEscaped | internal/contract/contract.go:184-209 | every text can be written as a literal's contents, and dropping the escaping backslashes gives it back |
| ContractLexer.CommentsNest | internal/contract/contract.go:157-178 | a block comment ends at a mark if and only if what stands before the mark is a sequence of characters and of whole comments, nested to any depth |
| ContractLexer.LineEndIsNext | internal/contract/contract.go:150-156 | a line comment is left out up to the next line break or the end of the source |
| ContractLexer.SlicesBeyondEndWhen | internal/contract/contract.go:185-200 | the look-ahead of a literal slices past the end of the source if and only if the literal is never closed, contains an escape, and the source does not end in a lone backslash; closed literals never do |
| ContractLexer.UnclosedEscapeFails | internal/contract/contract.go:185-200 | a source of three characters on which that happens |
| ContractLexer.CommentBlindness | internal/contract/contract.go:151-180 | replacing each comment, nested ones included, by as many spaces yields the identical result if and only if the source leaves no comment open within the bound on tokens, read off the source alone |
| ContractLexer.ComplainsOfOpenComments | internal/contract/contract.go:151-180 | the lexer reports an unterminated comment exactly for such sources, whatever literals decode to |
| ContractAnalysis.ParseAccess | internal/contract/contract.go:280-331 | the loop that follows fields and `.at` calls computes the specified access, its end and its diagnostics |
| ContractDocument.WrittenAccessIsRead | internal/contract/contract.go:280-331 | any access, however it ends, is read back as exactly the names it is written with, optional where a default is given, and complained of exactly where a name is not in the source |
| ContractDocument.ArgumentsBalance | internal/contract/contract.go:293-308 | the arguments of a call end where its parentheses balance, and a call is never closed exactly when they do not |
| ContractDocument.DefaultsAreOwn | internal/contract/contract.go:293-308 | an `.at` call counts as optional if and only if `default:` stands among its arguments where no parenthesis opened before is still open |
| ContractAnalysis.AnalyzeTokens | internal/contract/contract.go:228-278 | the loop computes the specified scan, whose meaning is that of the written document; only uses and other text look at the limit on paths |
| ContractDocument.ItemIsRead | internal/contract/contract.go:228-278 | one round of the scan does what the item written there means: a declaration names the root, a binding records and names a place, a loop records it as iterated and names its elements, a use records what is used |
| ContractDocument.DocumentExists | internal/contract/contract.go:228-278 | every token list is a document of such items |
| ContractDocument.EverySourceReads | internal/contract/contract.go:83-138 | every source that can be lexed reads as a document, so what is said of written accesses holds of every analysed source |
| ContractDocument.ScanReadsDocument | internal/contract/contract.go:228-278 | the scan of a document ends with exactly what the document means, or gives up exactly where too many paths are recorded at a use or at other text |
| ContractDocument.NamesAreKnown | internal/contract/contract.go:228-278 | the scan knows exactly the names that stand for report data, each as what the last declaration, binding or loop before made of it |
| ContractDocument.AccessIsRecorded | internal/contract/contract.go:228-278 | every written use, binding and loop of a name that stands for report data leaves its path behind, and every access whose names are not in the source leaves a diagnostic |
| ContractDocument.RecordedIsAccess | internal/contract/contract.go:228-278 | nothing else is recorded, and nothing else complained of |
| ContractDocument.RecordedIsNamed | internal/contract/contract.go:228-278 | every recorded path is that of a written access whose name stands for report data there |
| ContractAnalysis.AliasesAreCovered | internal/contract/contract.go:240-266 | whatever a bound name stands for, the tree has the path to it, flagged as array when it is a loop variable |
| ContractAnalysis.RunAnalysis | internal/contract/contract.go:83-138 | the whole analysis, in the source's order, computes the specified contract or refusal |
| ContractAnalysis.ContractExistsWhen | internal/contract/contract.go:83-138 | a source has a contract if and only if it is lexed and scanned, no recorded access is longer than the bound, and nothing in the completed sample lies deeper |
| ContractAnalysis.ContractIgnoresComments | internal/contract/contract.go:83-138 | blanking the comments of a source leaves the analysis as it is if and only if the source leaves no comment open |
| ContractDocument.ContractIsSafe | internal/contract/contract.go:83-138 | data conforming to the contract of a source can be followed along every access, binding and loop written in it, and without complaints no access was left unread |
| ContractAnalysis.RecordedPathIsSafe | internal/contract/contract.go:83-138 | data conforming to a contract can be followed along every recorded path |
| ContractDocument.ContractMeansDocument | internal/contract/contract.go:83-138 | the paths and diagnostics of a contract are exactly what the source means as a document |
| ContractAnalysis.ContractIsStable | internal/contract/contract.go:121-137 | analysing a source with its completed sample yields the same contract |
| ContractAnalysis.ContractAcceptsSample | internal/contract/contract.go:83-138 | the completed sample passes validation against its own contract if and only if it has the tree's shape and nowhere mixes an array with something else; validation stays within its depth bound |
| ContractAnalysis.MixedListRejectsItself | internal/contract/contract.go:513-553 | a list holding a list and a string is rejected by its own schema |
| StorageReads.ReadFrom | internal/storagecontrol/service.go:77-118 | the loop returns the first placement in order whose contents pass the digest checks, otherwise the error of the last one tried; without placements only the legacy store can answer; whatever is returned has the digest expected of it and that of its placement |
| StorageReads.ReadsRecorded | internal/storagecontrol/service.go:77-118 | where placements are truthful, a read succeeds if and only if some profile holding the object is in reach, and returns only contents with the recorded digest, whatever the order |
| StorageReads.ListingExists | internal/storagecontrol/repository.go:279-301 | the placement query has a result: the available placements, each once, preferred profile first, then the latest verified |
| StorageReads.ReadingExists | internal/storagecontrol/service.go:77-118 | an object with an available placement can be asked for, whatever is out of reach |
| ArtifactWrites.StoringIsSafeExactlyWhen | internal/queue/queue.go:364-378 | storing contents at a key keeps every placement truthful exactly when no available placement there has another digest |
| ArtifactWrites.RecordingIsSafeExactlyWhen | internal/storagecontrol/repository.go:303-332 | recording a stored artifact keeps every placement truthful exactly when the object's other placements hold the same contents, or the key is refused |
| ArtifactWrites.LateWriterBreaksReads | internal/queue/queue.go:369-378 | a writer that overwrites a recorded artifact with other contents makes its only copy fail the integrity check on every read |
| MigrationSafety.StepKeepsRows | internal/storagecontrol/repository.go:434-612 | no step of any actor takes back an available placement, an item, a migration's ends, or what an object contains |
| MigrationSafety.StepKeepsPlacements | internal/storagecontrol/repository.go:544-568 | every available placement stays backed by bytes with the object's digest in its store |
| MigrationSafety.CopyIsBacked | internal/queue/queue.go:278-298 | the copy a worker records is backed: digest and size were checked before it was stored |
| MigrationSafety.StepKeepsItems | internal/storagecontrol/repository.go:334-368 | what an item is to copy is always what its object is recorded to be |
| MigrationSafety.StepKeepsCopied | internal/storagecontrol/repository.go:544-590 | finished items and items of completed migrations always have an available placement at the destination, under stale and repeated deliveries too |
| MigrationSafety.StepKeepsWorkers | internal/queue/queue.go:251-300 | a worker's view may be stale, but what it holds has passed the checks and what it stored is there |
| MigrationLimits.StepKeepsCap | internal/storagecontrol/repository.go:457-471 | at most as many items of a destination run under a live lease as it has slots, after every step |
| MigrationLimits.StepKeepsRate | internal/storagecontrol/repository.go:472-497 | claims for a rate-limited profile stay a start gap apart, and the next is not due before another gap |
| MigrationLimits.WindowFills | internal/storagecontrol/repository.go:472-497 | the last of n claims in a window lies at least n - 1 gaps after its beginning |
| MigrationLimits.StepKeepsEnded | internal/storagecontrol/repository.go:522-612 | completed is never left; canceled is left by exactly one step, the unguarded last statement of a resume that finds every item finished, and then for completed |
| MigrationLimits.TerminalIsNotClaimed | internal/storagecontrol/repository.go:434-502 | no item of a completed or canceled migration is claimed |
| MigrationRuns.StepKeepsInvariants | internal/storagecontrol/repository.go:434-612 | one step of any actor keeps all invariants of the migrations together |
| MigrationRuns.CompletedIsCopied | internal/storagecontrol/repository.go:334-368 | every object that was available at the source when a migration was created, and was selected unless all were, is held by the destination with the digest it had at the source once the migration is completed, then and in all later states |
| MigrationRuns.CompletedItemsAreCopied | internal/storagecontrol/repository.go:544-590 | once a migration is completed, the destination holds the object of every item with the object's digest, then and in all later states |
| MigrationRuns.CompletedIsFinal | internal/storagecontrol/repository.go:522-612 | a completed migration stays completed in all later states |
| MigrationRuns.CanceledMayBeCompleted | internal/storagecontrol/repository.go:576-612 | a run from an initial state, with a migration that selects nothing, in which a cancel between the statements of a resume is overruled: the migration was canceled last and ends up completed |
| MigrationRuns.CancelIsOverruled | internal/storagecontrol/repository.go:576-612 | the same from every state with a migration that may be resumed and whose items are all finished |
| MigrationRuns.ReadsSurvive | internal/storagecontrol/service.go:77-118 | a read that succeeds still succeeds after any further history with the same profiles out of reach, with contents of the same digest, and the same bytes if the digest does not collide |
| MigrationRuns.StillReadable | internal/storagecontrol/service.go:77-118 | there is such a later read: the placement query and the fallback always give a result |
| MigrationRuns.PlacementsAgree | internal/storagecontrol/repository.go:303-332 | in every reachable state all available placements of an object carry its digest and are backed by their stores |
| MigrationRuns.SlotsAreRespected | internal/storagecontrol/repository.go:457-471 | in every reachable state the running leases of a destination profile, over all its migrations, are within its slots |
| MigrationRuns.StartsAreSpread | internal/storagecontrol/repository.go:472-497 | over any history, a window of length T holds at most T times the rate plus one claims for a profile, across migrations and dispatchers |
| MigrationRuns.TerminalIsNeverClaimed | internal/storagecontrol/repository.go:434-502 | after a migration is completed or canceled, no claim of any later history is of one of its items |
| MigrationRepository.Repository.ClaimMigrationWork | internal/storagecontrol/repository.go:434-502 | the transaction expires leases, then claims the first due item of the first profile in order whose lock, slots and rate allow it, or nothing exactly when no profile allows one; the work carries the ends, key, digest and size of the item and its next attempt |
| MigrationClaims.LostItemsReturn | internal/storagecontrol/repository.go:434-502 | all other items are as they were, except that items of running migrations whose lease ran out are pending and due again |
| MigrationClaims.ClaimedWasReady | internal/storagecontrol/repository.go:434-502 | the claimed item of a running migration was waiting and due, or had lost its worker, and its profile was not held back; it gets a lease and one more attempt, and the profile's next start is put off by its rate |
| MigrationClaims.ClaimedIsFirst | internal/storagecontrol/repository.go:434-502 | whatever else is ready either comes later, by profile, by when it was due and by object, or is held back |
| MigrationClaims.NothingToClaim | internal/storagecontrol/repository.go:434-502 | nothing is claimed only if everything that waits, or has lost its worker, is held back: its profile is not locked, was started too recently, or has all its slots taken |
| MigrationRepository.Repository.ChooseWork | internal/storagecontrol/repository.go:456-490 | the loop over the profiles ends with the first that can claim and its first item, or with none that can |
| MigrationRepository.Repository.ChooseItem | internal/storagecontrol/repository.go:457-482 | a profile yields its first due item exactly when its lock, its slots and its start rate allow one |
| MigrationRepository.Repository.GetMigrationWork | internal/storagecontrol/repository.go:509-520 | the work with the migration's ends and the item's key, digest, size and attempts as the rows are now; active exactly when item and migration are both running |
| MigrationRepository.Repository.ReleaseMigrationWork | internal/storagecontrol/repository.go:522-542 | the item becomes pending or failed whatever it was, due at the time given and without a lease; only a final failure fails a running migration; nothing else changes |
| MigrationRepository.Repository.CompleteMigrationWork | internal/storagecontrol/repository.go:544-568 | records the copy at the destination unless skipped, finishes the item, and completes the running migration exactly when none of its items is left; nothing else changes |
| MigrationRepository.Repository.DestinationHasCopy | internal/storagecontrol/repository.go:570-574 | true exactly for an available, verified placement at the destination |
| MigrationRepository.Repository.CreateMigration | internal/storagecontrol/repository.go:334-368 | accepted exactly for two different known profiles and a new id; then the draft has an item for an object if and only if the source has an available placement of it and it is selected or all are, each pending, unattempted, due now, with that placement's key, digest and size; other items stay |
| MigrationRepository.Repository.ResumeMigration | internal/storagecontrol/repository.go:576-590 | accepted exactly for a draft, paused or failed migration; its failed items, and no others, are pending and due, and it runs or, with nothing left, is completed |
| MigrationRepository.Repository.PauseMigration | internal/storagecontrol/repository.go:592-601 | pauses a running migration, by intent |
| MigrationRepository.Repository.CancelMigration | internal/storagecontrol/repository.go:603-612 | cancels a migration that has not ended |
| MigrationRepository.Repository.RecordTemplateArtifact | internal/storagecontrol/repository.go:303-332 | object and placement are written under one key, digest and size, refused exactly when the key is another object's; nothing else changes |
| MigrationWorker.CopyOutcome | internal/queue/queue.go:269-298 | a copy is recorded if and only if both profiles resolve, the contents have the expected digest and size, and the destination confirms key and digest; a failure is worth a retry if and only if both profiles resolve and the contents are missing or, good as they are, could not be put |
| MigrationWorker.OutcomeMeans | internal/queue/queue.go:251-268 | nothing is done for an item unless it and its migration are running, and nothing is copied if and only if the destination has a verified copy |
| MigrationWorker.HandledMeans | internal/queue/queue.go:251-308 | a handled item is finished once its copy is there, pending again after a passing failure before the fifth attempt, failed otherwise, never under a lease; only a copy that was made is recorded, and the migration fails or completes with its item |
| MigrationWorker.Worker.HandleMigration | internal/queue/queue.go:251-308 | handling a delivery has the specified outcome, rows and stores, and is a run of the protocol |
| MigrationRuns.RunKeepsInvariants | internal/queue/queue.go:251-300 | what a handler or a dispatcher does keeps all invariants of the migrations |
| MigrationDispatcher.Dispatcher.DispatchMigrations | internal/queue/queue.go:149-166 | the works a round of at most fifty claims takes, each with the attempt of its own claim, are in order those queued and possibly one given back, pending and without a lease; every task is named after migration, object and that attempt; the round stops early only when the queue fails or nothing can be claimed, and is a run of the protocol |
| JobLog.ReplayedIsStory | internal/jobs/jobs.go:343-366 | a log can be replayed exactly when it is a story of attempts 1, 2, 3, each closed at most once by its own worker or by recovery with nothing after a final close; status, attempts and worker can be read off its end |
| JobSafety.StepKeepsJobs | internal/jobs/jobs.go:343-595 | every step of any actor keeps logs, artifacts, data and lineage in agreement with the jobs, and takes nothing back |
| JobSafety.RetryKeeps | internal/jobs/jobs.go:455-504 | a retry copies its failed parent, is newer, and repeats no other retry |
| JobSafety.DeliverKeeps | internal/jobs/jobs.go:368-403 | completing a job records its report once and for all |
| JobHandoff.StepKeepsHandoff | internal/jobs/jobs.go:177-225 | while a dispatcher holds a row's lock its batch has the row's last claim, and no row goes before its job was handed over; every step keeps this |
| JobHandoff.DeletedWasHanded | internal/queue/queue.go:168-189 | a row deleted by a dispatcher was handed to the queue under the row's last claim, made after the row was last due |
| JobRuns.LogsTellTheStory | internal/jobs/jobs.go:343-431 | in every reachable state each job's log is such a story and the job's status, attempts and worker are its ending |
| JobRuns.ProcessingMeansHeld | internal/database/migrations/010_report_operations.sql:1-17 | in every reachable state a job is processing exactly while it has a worker and exactly while it has a lease |
| JobRuns.FinishedIsFinal | internal/jobs/jobs.go:343-431 | a completed or failed job, its report and its log never change again |
| JobRuns.RecordedOnce | internal/jobs/jobs.go:374-391 | a job is completed only where no report of it was recorded, so recording replaces nothing |
| JobRuns.OnlyTheHolderFinishes | internal/jobs/jobs.go:368-431 | unless it starts a queued job, recovers one whose lease ran out, or comes from the current worker, no step changes a job, its log, its report or the report's placements |
| JobRuns.FencesAttemptExactlyWhen | internal/jobs/jobs.go:368-431 | a call for attempt k, to give up or to complete, closes another attempt if and only if the same worker holds the job again under a later attempt (and, to complete, the key is free) |
| JobRuns.StaleCallClosesNewerAttempt | internal/jobs/jobs.go:413-431 | that happens: a delivery that outlived its lease closes the attempt that replaced it |
| JobRuns.NothingIsLost | internal/jobs/jobs.go:177-225 | in every reachable state a job without an outbox row was handed to the queue under a claim made since its row was last due |
| JobRuns.DeletedOnlyAfterHandoff | internal/queue/queue.go:168-189 | a row disappears only when a dispatcher with its last claim completes it after the queue took the job under that claim |
| JobRuns.LateCompletionDoesNothing | internal/jobs/jobs.go:207-213 | completing a row that was claimed again or made due again since changes nothing |
| JobRuns.JobDataConforms | internal/jobs/jobs.go:132-175 | the data of every job, retries included, conforms to the schema of the version it is pinned to, in every reachable state |
| RenderingSafety.StepKeepsInv | internal/templates/templates.go:471-481 | every step of templates or jobs keeps the invariants of both, and every version jobs may use is a published row with its schema |
| RenderingSafety.JobsRenderPublishedRows | internal/jobs/jobs.go:132-175 | in every reachable state of the two together, the version a job is pinned to is a published row of a template, and the data conforms to the schema in that row |
| RenderingSafety.EveryWrittenAccessIsSafe | internal/queue/queue.go:317-356 | over all joint histories of templates and jobs, the data of every job can be followed along every access written in the source of its version, and no access of that source was left unread |
| JobRuns.RootIsFirst | internal/jobs/jobs.go:455-504 | following parents ends at a job that is no retry, not newer, with the same version, data and data hash |
| JobRuns.TreesShareTheirRequest | internal/jobs/jobs.go:455-504 | all jobs of one retry tree have the same version, data and data hash |
| JobRuns.ParentsStayFailed | internal/jobs/jobs.go:455-504 | a job with a retry is older than it and stays failed and unchanged for ever |
| JobRuns.RetryIsIdempotent | internal/jobs/jobs.go:455-504 | retrying with the same parent, actor and key returns the same job, however much later, and changes nothing |
| JobRepository.Repository.Create | internal/jobs/jobs.go:132-175 | the checks in their order decide, with the verdict of validation. A created job is of the newest published version of its template that a restricted caller may use, or of the number asked for, with the data given, its log and its outbox row; the template is unknown exactly when there is no such version; conforming data within the depth bound becomes a job unless hash, default profile or id forbid it |
| JobRepository.Repository.ResolveVersion | internal/jobs/jobs.go:141-147 | the newest published version of the template with that slug, if the slug is among those allowed, and of the number asked for; none exactly when there is none |
| JobRepository.Repository.ClaimOutbox | internal/jobs/jobs.go:177-205 | locks distinct due rows nobody holds, as many as allowed, none younger than one left out, and exactly those; all that are due and free if they are fewer |
| JobRepository.Repository.ChooseBatch | internal/jobs/jobs.go:177-205 | the rows picked are due, unlocked, no later than those left, and fewer than the limit only if all are taken |
| JobRepository.Repository.CompleteOutbox | internal/jobs/jobs.go:207-213 | deletes the row only while its owner has it locked |
| JobRepository.Repository.RetryOutbox | internal/jobs/jobs.go:215-225 | puts the row back for later, unlocked and with one more attempt, only while its owner has it locked |
| JobRepository.Repository.MarkProcessing | internal/jobs/jobs.go:343-366 | starts the next attempt of a queued job, with its worker, lease and log entry, and only of a queued one |
| JobRepository.Repository.MarkCompleted | internal/jobs/jobs.go:368-403 | writes report and placement before it checks ownership, and leaves neither behind when the job is not this worker's |
| JobRepository.Repository.FinishAttempt | internal/jobs/jobs.go:413-431 | closes the attempt of the job's current worker; for anyone else it changes nothing |
| JobRepository.Repository.Retry | internal/jobs/jobs.go:455-504 | a new queued job with the failed one's version and data and its outbox row, the existing one exactly for a key used before, or the right refusal |
| JobRepository.Repository.RecoverStale | internal/jobs/jobs.go:565-595 | takes a job from its worker exactly when the lease has run out and the worker's heartbeat stopped for thirty seconds; it is queued again, its row due and unlocked, and its log says so |
| JobQueue.PassSettlesTheBatch | internal/queue/queue.go:168-189 | after a pass every row of the batch is deleted if the queue took it, otherwise put back unlocked; no other row is touched |
| JobQueue.Dispatcher.Dispatch | internal/queue/queue.go:168-189 | at every pass of a dispatcher, its first or a later one, a batch is claimed and every row handed over or put back; the dispatcher is then done with the batch, and the pass is a run of the protocol |
| JobRuns.RunKeepsInvariants | internal/queue/queue.go:168-189 | what a dispatcher or a worker does keeps all invariants of the jobs |
| JobWorker.Worker.HandleReport | internal/queue/queue.go:317-398 | a queued job is begun, stored and recorded, in this order, if all goes well; a failure before the report is stored closes the attempt if the database can be reached; a completion that cannot be recorded leaves the report stored and the attempt open; a job that is not queued is left alone; the whole is a run of deliveries |
| JobWorker.ReportedMeans | internal/queue/queue.go:364-385 | a reported job is completed after one more attempt, with the key, digest and size of what was rendered, placed at the job's profile |
| JobWorker.GivenBackMeans | internal/queue/queue.go:388-398 | a job that could not be reported is failed at the last try and queued again before, or stays processing when the database is out of reach |
| JobDeliveries.MoveIsRun | internal/queue/queue.go:317-385 | every move of a delivery is a step of the job protocol, or changes none of its state |
| JobDeliverySafety.MoveKeepsInv | internal/queue/queue.go:317-385 | every move keeps the job invariants, one delivery for each attempt, keys that name their jobs, and the report of a job attempted once intact |
| JobDeliverySafety.DeliveredAfresh | internal/jobs/jobs.go:368-403 | a report is recorded for the first time and under one placement |
| JobDeliveryRuns.ReadableForEverExactlyWhen | internal/queue/queue.go:364-378 | a completed report that is intact stays readable through every further run if and only if no delivery of the job is still to store |
| JobDeliveryRuns.SingleAttemptIsReadable | internal/queue/queue.go:364-378 | from the empty state on, a report completed by the job's only attempt is intact then and ever after |
| JobDeliveryRuns.LateStoreRuinsReport | internal/queue/queue.go:364-378 | a run, begin, recover, begin, store, record, late store, that leaves a completed job whose report fails its digest |
| JobDeliveryRuns.StaleDeliveryCompletesNewerAttempt | internal/jobs/jobs.go:368-403 | a run in which the delivery of a recovered attempt completes the attempt that replaced it, with its own rendering |
| JobDeliveryRuns.RecordsOtherAttemptExactlyWhen | internal/jobs/jobs.go:368-403 | recording closes another attempt than the delivery's own if and only if its worker has taken the job again since |
| TemplateModel.TotalWithout | internal/templates/templates.go:354-364 | the total size of a version's assets does not depend on the order of summation |
| TemplateSafety.StoringStaysWithinLimits | internal/templates/templates.go:354-364 | storing an asset that passes the check keeps a version within its number and total size of assets |
| TemplateSafety.StepKeepsSequences | internal/templates/templates.go:188-291 | every step keeps the numbers of a template at 1 to n with at most version n unpublished |
| TemplateSafety.ApprovedRowAgrees | internal/api/templates.go:194-241 | the guard on source, sample and asset revision makes the approved version the one that was checked |
| TemplateSafety.StepKeepsInv | internal/api/templates.go:194-285 | every step of edits, uploads and handlers keeps versions, handlers and artifacts in agreement |
| TemplateRuns.NumbersAreSequential | internal/database/migrations/003_template_management.sql:1-15 | in every reachable state the numbers are exactly 1 to n, and at most one version, n, is draft or approved |
| TemplateRuns.OlderVersionsNeverChange | internal/templates/templates.go:257-291 | every version below the newest is published and the same in all later states |
| TemplateRuns.ApprovedMeansChecked | internal/api/templates.go:194-241 | source, sample and contract of an approved version are what was analysed without complaint and validated; its assets are what was rendered unless the draft was discarded and recreated meanwhile |
| TemplateRuns.RecreatedDraftEscapes | internal/templates/templates.go:281-291 | a run in which a recreated draft is approved with assets nobody rendered |
| TemplateRuns.PublishedIsStored | internal/api/templates.go:243-285 | a published version has a recorded artifact whose stored contents are its source, then and in all later states |
| TemplateRuns.StoredIsApproved | internal/api/templates.go:262-283 | whatever is stored as a template's artifact is the source of an approved or published version |
| TemplateRuns.RecordingRepeats | internal/storagecontrol/repository.go:303-332 | whoever records an artifact of a version repeats what every recorded copy of it holds |
| TemplateRepository.Repository.Create | internal/templates/templates.go:188-207 | a new template with its first draft, or a conflict |
| TemplateRepository.Repository.CreateVersion | internal/templates/templates.go:209-255 | succeeds exactly when the template exists, no version is pending and the base exists, the new version counting as its own base; the new row is a draft with the content given and its base's assets, under the next number; otherwise nothing remains of it |
| TemplateRepository.Repository.NextNumber | internal/templates/templates.go:215-222 | one more than the highest number there is |
| TemplateRepository.Repository.UpdateDraft | internal/templates/templates.go:257-267 | the draft has the new source, sample and contract and keeps its status, assets, revision and incarnation; every other version is as before, and so is everything when it is no draft |
| TemplateRepository.Repository.DeleteDraft | internal/templates/templates.go:269-279 | removes exactly the draft, and only a draft |
| TemplateRepository.Repository.Measure | internal/templates/templates.go:354-360 | the loop over the manifest computes the total size of its assets |
| TemplateRepository.Repository.StoreDraftAsset | internal/templates/templates.go:338-411 | each refusal exactly when its condition holds, the limits counted without the file that is replaced; otherwise manifest and revision of this draft change together, and nothing else |
| TemplateRepository.Repository.DeleteDraftAsset | internal/templates/templates.go:442-469 | removes the asset of a draft and raises the revision, or refuses and changes nothing |
| TemplateRepository.Repository.Approve | internal/templates/templates.go:281-291 | approves exactly a draft whose source, sample and asset revision are those seen, with the contract found, and changes nothing else |
| TemplateRepository.Repository.Publish | internal/templates/templates.go:471-481 | publishes exactly an approved version and changes nothing else |
| TemplateRepository.Handlers.ApproveTemplateVersion | internal/api/templates.go:194-241 | approves only with its assets read, and only what was analysed without complaint, satisfies its own contract and renders, with the contract found; undisturbed, whatever passes and stays within validation's depth is approved; the handler is a run of the protocol |
| TemplateRepository.Handlers.PublishTemplateVersion | internal/api/templates.go:243-285 | stores, records and publishes in this order, as a run of the protocol; publishes exactly when version, assets, profile, store and record allow, and a failing record leaves the version approved |
| ApiKeys.DecodeEncode | internal/apiclients/service.go:229-234 | decoding an encoded secret gives the same bytes, for bytes of any number |
| ApiKeys.EncodeDecodeExactlyWhen | internal/apiclients/service.go:118-121 | encoding what was decoded gives the text back if and only if it has no newlines and no unused bits set |
| ApiKeys.DecoderIsNotInjective | internal/apiclients/service.go:118-121 | three texts that decode to the same byte |
| ApiKeys.PrintedKeysParse | internal/apiclients/service.go:107-123 | an issued key parses to its id and secret, underscores in the encoded secret included |
| ApiKeys.AcceptsExactlyPrintedKeys | internal/apiclients/service.go:107-123 | a text is accepted with an id and a secret if and only if the id is a ULID, the secret has 32 bytes, and the text is their printed form |
| ApiKeys.PrintIsInjective | internal/apiclients/service.go:229-234 | different keys never print alike |

## Left out

- HTTP handlers beyond the steps of approving and publishing, sessions, configuration, health checks and the web interface: plumbing.
- JSON text: samples, data and schemas are decoded values; numbers keep their text only to tell integers from other numbers. Size limits on sources and data, and marshalling, are not modelled.
- Message and path texts of errors, and the order in which validation reports: an error is the place and the types expected there.
- The decoding of escapes inside string literals is a parameter; which characters it is given is modelled.
- ContractTree.MergeObject: nested objects are completed as values, so sharing of nested maps between a sample and its completed form is not modelled.
- The leaf flag of tree nodes has no effect and is only carried along.
- Bounds on the number of tokens and paths are modelled as the code has them; that the branches for bindings skip the bound on paths is part of the model, and no bound is relied on.
- PostgreSQL: each transaction is one atomic step; unique indexes and triggers are part of the steps that meet them; a failing connection is a step that does not happen. Row locks are sets of rows and profiles that other transactions hold.
- MigrationRepository.Repository.PauseMigration: modelled by intent, since the query is given no argument.
- Profiles keep their slots and rates during a migration history; objects, placements and items always have a digest and a size, so rows of the legacy bootstrap are not part of this model.
- SetMigrationState and SetMigrationItemState: generic setters without a caller here.
- Redis and Asynq: the queue is a set of task names with deliveries at any time and any number of times; that a queued job is delivered at all is not claimed.
- Delays before retries are parameters, so the back-off itself is not stated.
- SHA-256 is any digest function, injective where equal bytes are concluded; encryption of credentials is not modelled.
- Typst rendering, the filesystem and S3 are parameters that may fail.
- MigrationRuns.ReadsSurvive: other writers are taken to store each object under its own key and to repeat what is recorded for it. That recording does so is proved of reports (`JobRuns.RecordedOnce`) and of templates (`TemplateRuns.RecordingRepeats`), and storing of templates (`TemplateRuns.StoredIsApproved`). Storing reports does not always: `JobDeliveryRuns.ReadableForEverExactlyWhen` says when, and `JobDeliveryRuns.LateStoreRuinsReport` is a run where it does not.
- MigrationRuns.StillReadable: under the same assumption on other writers.
- MigrationRuns.PlacementsAgree: under the same assumption on other writers.
- MigrationRuns.CompletedIsCopied: under the same assumption on other writers.
- MigrationRuns.CompletedItemsAreCopied: under the same assumption on other writers.
- MigrationSafety.StepKeepsRows: under the same assumption on other writers.
- MigrationSafety.StepKeepsPlacements: under the same assumption on other writers.
- ArtifactWrites.LateWriterBreaksReads: about any state of the stores; the run that leads to such a state is in JobDeliveryRuns.
- StorageReads.ReadsRecorded: placements that compare equal may come in any order, as the time of creation is not modelled.
- WriteTarget chooses between a resolved profile and the legacy store: it would only add an easy member.
- The storage of assets inside StoreDraftAsset is reduced to whether it succeeded; a manifest entry is a digest and a size.
- TemplateRuns.ApprovedMeansChecked: about assets it goes one way only, since a recreated draft may happen to have the assets that were rendered.
- TemplateRepository.Repository.Approve: compares samples as values. The database's comparison of JSON also passes a stored sample that differs only in number notation, such as 1 and 1.0; the approved row then gets the sample that was seen, so TemplateRuns.ApprovedMeansChecked stands.
- RenderingSafety.EveryWrittenAccessIsSafe: versions published before the history begins are not covered, as nothing is known of how they were approved. Templates are numbered injectively by their slugs, which are unique in the database.
- JobDeliveries: keys name their jobs, as the worker forms them, and the stores answer with the key they were given and the digest of what they stored, as both backends do (`internal/storage/storage.go`, `internal/storage/s3.go`).
- ContractTree.Follows: a loop over the root of the data itself is recorded without a name and demands nothing of the data, as in the source.
- Report lists, filters, paging, the catalog, archiving, access scopes and audit records: easy members.
- Issuing, rotating and revoking keys beyond their printed form. The ULID library is not part of the repository: a strict ULID is 26 characters of Crockford's alphabet in either case, the first at most 7.
