# Siatt: a verified model

Siatt keeps a person's long-term memory as Markdown files in a git repository, with indexes, queues and
conversations derived from it. This project models the code that decides what happens to those memories and
conversations, and proves what the code promises about them. Everything is checked by
`dafny verify dfyconfig.toml`.

## What is modelled

The tree is a map from paths to files, a file being a parsed memory or bytes that do not parse. Git, SQLite,
YAML, the clock, the model and the tools are parameters. Loops and objects that the source updates in place are
methods and classes here, proved against functions; the theorems are about those functions, for every input,
every run and every interleaving.

| files | what they hold |
|---|---|
| `Text`, `TextLaws`, `Layout`, `Document`, `Wrappers` | string operations, paths, memories, options and results |
| `Manifest`, `ManifestLaws`, `Changeset` | the manifest and its lookups; replaying, projecting and checking a change list |
| `Patch`, `PatchCompiler`, `PatchEffects`, `PlanEffects`, `PatchAgreement`, `PatchGuards`, `Retention` | the six patches, the compiler, what an accepted patch and an accepted plan write, the three accounts of "the manifest afterwards", the check that would keep them together, and what runs of plans can lose |
| `Forget`, `ForgetDecisions`, `ForgetPlans`, `ForgetLimits` | what the weekly job takes and leaves, exactly when the compiler takes it, and where the two disagree |
| `Index`, `IndexRuns`, `IndexKnots`, `IndexContents` | what a full index holds; the incremental index, stopped at any statement, against the full rebuild; what the next run repairs, and what running again ever will; `freshness` |
| `Civil`, `Zones`, `Cron`, `CronFields`, `CronSchedules` | the calendar, offset transitions, the search for the next firing, the five fields, and the dates a written schedule falls on |
| `Transcript`, `Agent`, `AgentTurns` | tool calls and answers, the turn loop with failures and cancellations anywhere, and what it stores |
| `Elision`, `Turns`, `Context` | shortening text, cutting a conversation into turns, packing it into a budget |
| `Candidates`, `Packing`, `PackingLaws` | collecting and merging recall candidates, the three-pass packer, and its guarantees |
| `Sessions`, `SessionActors`, `SessionLaws`, `SessionLimits` | one actor per session, the router, and every interleaving of them |
| `Lease`, `Drain` | the write lease with crashes and store errors, the queue drainer with cancellations |
| `Chunk`, `ChunkCuts`, `ChunkLaws` | splitting prose into pieces |

## What the proofs turned up

Places where the code does not do what it, or the text beside it, says. Each has a lemma; where the code does do it
on a condition, the theorem with the condition is named beside it.

- A plan can create two memories at one path: `create` looks at the disk, not at the projection
  (`TwoCreatesShareAPath`). The three accounts agree after every patch exactly when nothing is overwritten
  (`AgreementExact`), and that is when every patch finds its new paths untaken in the projection and rewrites only
  the memory it was asked to (`GuardIsExact`).
- Two updates of one memory in one plan are both worked out from the file as it was before the plan: the second leaves
  no trace of the first, on disk or in the manifest (`SecondUpdateErasesFirst`). An update is on disk after the plan if
  no later patch touches its file (`UpdateStands`).
- A merge that names a source outside the archive twice is refused, because the second time it looks for the source's
  new file on the disk as it was (`MergeAccepted`, when nothing stands at the longer archive names).
- `forget` says the validator re-checks what it checked (siatt/runner/forget.py:298-300). They disagree in four
  ways, which `ProposalAccepted` lists exactly, and `AcceptedBeforehand` in terms of what is there before the plan: a
  link kept in the archive (`ArchiveLinkRefused`), thirteen archives against a cap of twenty-five files
  (`ThirteenColdRefused`: of up to twenty cold memories, all accepted up to twelve and refused from thirteen), a
  secret, and a link of the archived memory that leads nowhere that lasts. The last includes a memory that links to
  itself by its own path (`SelfLinkRefused`).
- Skipping a file that cannot be read is said to keep the memories it links to (siatt/runner/forget.py:281-284). It
  lets them go: an old archived memory that a live one links to is not collected while the live file can be read
  (`ReadableFileProtects`), and is the whole plan, accepted, once it cannot (`BrokenFileUnprotects`). The links of
  every live file that can be read are protected (`ReadMeansProtected`).
- An index that a stopped run left, or whose files swapped ids, is not always repaired by running again. The next
  incremental run reaches the full rebuild exactly when no listed memory's chunks are held under a later path, every
  listed file whose hash is recorded has its rows, and no row belongs to a path that is neither recorded nor listed
  (`RepairedExactly`). An index that fails either of the last two is never repaired by running again on that disk
  (`DamageIsForGood`), and a stop can break either: between a delete and its insert (`StoppedRunCanStick`), or, on a
  first run, between an insert and its record (`StoppedRunCanOrphan`). Files each of whose ids is held under another
  of them are refused by every run, two that swapped ids among them (`KnotStays`, `SwappedIdsStick`). Running again
  comes to the full index exactly when there is no such damage and no such knot (`ComesToFull`).
- `freshness` counts archived files that the indexer leaves out, so one of them makes a finished index look stale
  (`ArchivedLooksStale`). What it calls stale and what a run would change are both told exactly, and part only over
  archived files (`FreshnessExact`).
- The four-year horizon is said to reach a leap day (siatt/runner/cron.py:31-33). It does from every start but those
  around a century that skips one (`LeapDayReached`): none is found from 29 February 2096, a minute past midnight, up
  to midnight of 25 February 2100 (`Around2100`).
- When the clocks jump forward to a reading that is not a whole minute, the minutes they skipped are pending until the
  next whole minute. In that time a due one is passed over, unless that next minute is due as well, and at no other time
  (`NextIsLeastInstant`, both directions). Monrovia's clocks did so on 7 January 1972, and `0 0 7 1 *` asked ten seconds
  later misses that day (`MonroviaMisses`).
- A tool call is left unanswered exactly when the turn stores a reply that makes it and then: is cut while storing that
  reply; or the reply reports another stop reason; or the message that would answer it, with results, refusals or the
  filler, is not stored; or the pictures for the results cannot be read (`Strands`, `TurnLeavesItWellFormed`). No later
  turn repairs it (`ConversationWellFormed`). With replies that report tool use whenever they call tools, pictures that
  can be read and nothing cut while it is being stored, nothing is left unanswered (`HonestTurnsReplay`).
- Eliding a result can raise its token count: unbroken ASCII costs a token more at 655 to 657 characters and at no other
  length (`ElisionCanCostMore`), and from 660 characters on no text does (`ElisionSaves`). It is not idempotent: what is
  left is elided again exactly when it still has 655 characters (`ElidedAgain`). A truncated summary is within its
  budget exactly, because its marker weighs a whole number of tokens (`TruncationFits`).
- The session sweep does not look again after waiting for an earlier actor to stop, so it can drop an actor in the
  middle of a turn, and the session's next message then overlaps it (`SweepCanPopABusyActor`). Turns never overlap
  if every pop takes an actor with nothing left to run (`OneTurnAtATime`), and from any other pop they can
  (`UnsafePopOverlaps`).
- `stale_lease` reads the row before it tests the lock, and can report a process that released in good order
  (`ProbeCanAccuseTheLiving`); it is right if the row it read still stands (`ProbeRightIfRowStands`). A store error
  between taking the lock and reading the row leaks the lock until the process dies (`LeakedLockStarves`).
- A folded piece can be 1202 characters, over the cap of 1200 (`CapExceeded`). A body has a piece over the cap exactly
  when the fold joins two whose lengths come to 1199 or 1200 (`SplitOverCap`).

## Model

| member | source | states |
|---|---|---|
| `Manifests.Manifest.Record` | siatt/memory/manifest.py:190-202 | the id is now at the path, with the document's supersedes, and nothing else moved |
| `Manifests.Manifest.Forget` | siatt/memory/manifest.py:204-208 | the id is gone, and the answer says whether it was there |
| `Manifests.Manifest.Move` | siatt/memory/manifest.py:210-219 | an id that is there changes its path and keeps the rest; an unknown id changes nothing |
| `Manifests.Manifest.IdAt` | siatt/memory/manifest.py:153-157 | finds an id living at the path if and only if there is one |
| `Manifests.SuccessorOf` | siatt/memory/manifest.py:159-164 | finds a memory that supersedes the id if and only if there is one |
| `Manifests.ByPath` | siatt/memory/manifest.py:223-235 | finds a memory by exact path or by filename if and only if one answers |
| `Manifests.Resolve` | siatt/memory/manifest.py:166-182 | a link resolves, to a memory that answers it, exactly when some memory answers it by id, successor or path |
| `Manifests.StillResolves` | siatt/memory/manifest.py:166-182 | a link's answer that stays where it was keeps the link resolving, whatever other memories go |
| `Manifests.Rebuild` | siatt/memory/manifest.py:85-119 | the walk gives each id to the first file that claims it and reports the files that do not parse and the later claimants |
| `Manifests.RebuildIsTheDescription` | siatt/memory/manifest.py:85-119 | a manifest describes a tree exactly when no two files share an id and it is what a rebuild gives, in any walking order |
| `ManifestLaws.FirstClaimWins` | siatt/memory/manifest.py:85-119 | the first file of the walk with an id becomes its entry, with that file's path, title, kind, visibility and supersedes, whatever later files claim the id |
| `ManifestLaws.ProblemsAreTheOthers` | siatt/memory/manifest.py:85-119 | a problem is reported, in order, for every file of the walk that is not the first of its id |
| `ManifestLaws.IdLinks` | siatt/memory/manifest.py:159-182 | a link by id finds that memory while it is there, and once it is gone whatever supersedes it, if anything does |
| `ManifestLaws.PathLinks` | siatt/memory/manifest.py:223-235 | a link by name finds the memory at that path, with or without the suffix and the directory, before any by its stem |
| `TextLaws.StripMeans` | siatt/memory/manifest.py:166-182 | stripping takes the space off both ends and nothing else |
| `TextLaws.SplitMeans` | siatt/runner/cron.py:227-233 | splitting cuts at every separator and only there |
| `TextLaws.DigitsMean` | siatt/core/context.py:405-419 | the digits in a marker write the number that went |
| `Changeset.Project` | siatt/memory/changeset.py:26-46 | the projected manifest is one the changes lead to, step by step, whichever id a shared path gives up |
| `Changeset.SplitProjection` | siatt/memory/changeset.py:26-46 | projecting a list is projecting its first half and then its second |
| `Changeset.Collisions` | siatt/memory/changeset.py:49-81 | reports each id that the walk over the changes leaves at more than one path, with those paths |
| `Changeset.OwnersTrackTheTree` | siatt/memory/changeset.py:49-81 | on a described tree that walk knows, for every id, exactly the paths the id lives at once the changes are on disk |
| `Changeset.CollisionsExact` | siatt/memory/changeset.py:49-81 | on a described tree the report is exactly the ids living at two or more paths after any changes, in order, overwrites and broken writes included |
| `Changeset.CollisionsNeedTheManifest` | siatt/memory/changeset.py:49-81 | a duplicate that the manifest never saw goes unreported, so the hypothesis is needed |
| `PatchCompiler.Compiler.CompileCreate` | siatt/memory/patch.py:238-258 | one new entry and one stamped write at the asked or conventional path, or the first of: known id, path not writable, file there, too large. This is the outcome that `PatchSettles` and `PlanKeeps` are about |
| `PatchCompiler.Compiler.CompileUpdate` | siatt/memory/patch.py:260-283 | the memory rewritten where it is, re-stamped unless only derived fields change; an immutable or invalid field, or too large a file, refuses it. The outcome that `PatchSettles` and `PlanKeeps` are about |
| `PatchCompiler.Compiler.CompileMerge` | siatt/memory/patch.py:285-312 | the target gets the prose and every source is archived; a refusal among the sources gives no changes but keeps the moves already projected. The outcome that `PatchSettles` and `PlanKeeps` are about |
| `PatchCompiler.Compiler.CompileSupersede` | siatt/memory/patch.py:314-330 | the successor is created naming the old id, which is archived. The outcome that `PatchSettles` and `PlanKeeps` are about |
| `PatchCompiler.Compiler.CompileArchive` | siatt/memory/patch.py:332-341 | the memory moves to its archive path re-stamped, the old file going; an archived one is left as it is. The outcome that `FoldProposal` turns into one move for each archive |
| `PatchCompiler.Compiler.CompileDelete` | siatt/memory/patch.py:343-376 | the entry and the file go, or every reason not to is given: the job, the pin, not in the archive, under the floor. The outcome that `PlanKeeps` and `RetentionFloor` are about |
| `PatchCompiler.Compiler.CompileEach` | siatt/memory/patch.py:195-199 | every patch is compiled against what the ones before it project, and a refused one adds reasons and no changes |
| `PatchCompiler.Compiler.CheckLinks` | siatt/memory/patch.py:425-465 | refuses if and only if a written link dangles or a surviving memory still links to a deleted id |
| `PatchCompiler.Compiler.CheckPlan` | siatt/memory/patch.py:380-389 | refuses if and only if the plan is over the file cap, leaves a bad link or writes a secret |
| `PatchCompiler.Compiler.Compile` | siatt/memory/patch.py:187-217 | changes come back if and only if every patch and every whole-plan rule passes; otherwise every patch's reasons do |
| `PatchEffects.CreateWrites` | siatt/memory/patch.py:238-258 | an accepted create writes one file, at the asked or conventional path: the memory as given, stamped |
| `PatchEffects.CreateAccepted` | siatt/memory/patch.py:238-258 | a create is accepted if and only if its id is unknown, its path writable with no file on it, and what it writes within the size |
| `PatchEffects.RefusedCreate` | siatt/memory/patch.py:238-258 | otherwise it is refused for the first of these that fails |
| `PatchEffects.UpdateWrites` | siatt/memory/patch.py:260-283 | an accepted update writes one file, the memory's own: each header field as given or else as on disk, the given prose opened and closed by a newline with its links or else the prose on disk, the id and creation of the disk, and a new stamp unless only salience or visibility is given |
| `PatchEffects.UpdateAccepted` | siatt/memory/patch.py:260-283 | an update is accepted if and only if its memory can be read, every given field may be set and holds what is given, and what it writes is within the size |
| `PatchEffects.RefusedUpdate` | siatt/memory/patch.py:260-283 | otherwise it is refused for the first of: unknown, missing or broken, an immutable field, an invalid field, the size |
| `PatchEffects.DedupeIsOnceEach` | siatt/memory/patch.py:559-560 | the values once each, in the order they first come |
| `PatchEffects.MergeWrites` | siatt/memory/patch.py:285-312 | an accepted merge writes its target with the plan's prose, stamped, superseding what it did and every source, each once, and then moves every source that is not in the archive into it, stamped, and nothing else |
| `PatchEffects.MergeAccepted` | siatt/memory/patch.py:285-312 | with the longer archive names free, a merge is accepted if and only if it has sources, none of them the target, all can be read, none outside the archive is named twice, and the target stays within the size |
| `PatchEffects.RefusedMerge` | siatt/memory/patch.py:285-299 | a merge is refused for having no sources, for a source that is the target, or for the first memory that cannot be read |
| `PatchEffects.SupersedeWrites` | siatt/memory/patch.py:314-330 | an accepted supersede writes the successor where it belongs, stamped, with the old id among what it supersedes, and moves the old memory into the archive |
| `PatchEffects.SupersedeAccepted` | siatt/memory/patch.py:314-330 | it is accepted if and only if the old memory can be read and the successor may be created |
| `PatchEffects.ArchiveMoves` | siatt/memory/patch.py:332-341 | an archive is accepted if and only if the memory can be read; it writes it as it was, stamped, under an archive name, and removes the old file; one in the archive is left alone |
| `PatchEffects.ArchiveNames` | siatt/memory/patch.py:483-489 | the name is the title's, or with the end of the id when the disk or the projection has the first |
| `PatchEffects.DeleteRemoves` | siatt/memory/patch.py:343-376 | a delete is accepted if and only if the job is `forget` and the memory readable, archived, unpinned and past the floor; each reason is given exactly when it holds |
| `PlanEffects.FoldIsThePatches` | siatt/memory/patch.py:195-199 | a plan's changes are those of its patches in order, and its reasons those of its patches, each with its patch's index |
| `PlanEffects.AcceptsExactly` | siatt/memory/patch.py:187-217 | a plan is accepted if and only if every patch is, it touches no more files than the cap, writes no secret and no link without an answer, and no file that stays links to an id it deletes |
| `PlanEffects.AcceptedLeaves` | siatt/memory/patch.py:425-465 | on the tree an accepted plan leaves, overwriting nothing, every file is as it was and links to no deleted id, or was written, holds no secret and has only links that resolve |
| `PlanEffects.UpdateStands` | siatt/memory/patch.py:260-283 | an update is on disk after the plan if no later patch touches its file |
| `PlanEffects.SecondUpdateErasesFirst` | siatt/memory/patch.py:469-481 | of two updates of one memory in a row the first leaves no trace, since both read the disk as it was |
| `PlanEffects.PlanWritesValid` | siatt/memory/document.py:115-147 | from valid files, ids and new memories, an accepted plan writes only valid headers: kinds, fractions, scopes and memory ids |
| `PlanEffects.MergedLinksSurvive` | siatt/memory/patch.py:308-312 | links to a merged source resolve afterwards, even once the source is deleted |
| `PlanEffects.SupersededLinksSurvive` | siatt/memory/patch.py:314-330 | and so do links to a superseded memory |
| `PatchAgreement.PatchSettles` | siatt/memory/patch.py:221-376 | a patch on a described tree either keeps the three accounts together or leaves two memories at one path that nothing later in the same patch separates |
| `PatchAgreement.PlanSettles` | siatt/memory/patch.py:187-217 | if nothing is overwritten the three accounts agree after the plan, and if they agree after every prefix nothing is overwritten |
| `PatchAgreement.AgreementExact` | siatt/memory/patch.py:187-376 | the compiler's projection, `project` and a rebuild of the replayed tree agree after every patch if and only if no write lands on another memory's file |
| `PatchGuards.PlanGuarded` | siatt/memory/patch.py:221-376 | an accepted plan overwrites nothing if and only if every patch finds its new paths untaken in the projection and rewrites only the memory it was asked to |
| `PatchGuards.GuardIsExact` | siatt/memory/patch.py:187-376 | and that is exactly when the three accounts agree after every patch |
| `PatchGuards.GuardedStaysDescribed` | siatt/memory/manifest.py:85-119 | over any run of plans guarded in this way the manifest stays an exact description of the tree |
| `Retention.PlanKeeps` | siatt/memory/patch.py:332-376 | an accepted plan stamps all it writes, and loses only ids it deletes that were archived, unpinned and old before it began: no plan archives and then deletes |
| `Retention.AlwaysDescribed` | siatt/memory/manifest.py:85-119 | over any run of plans, each of whose attempts keeps its written paths apart, the manifest stays an exact description of the tree |
| `Retention.OnlyForgetLoses` | siatt/memory/patch.py:343-352 | over any run of plans, each of whose attempts keeps its written paths apart, an id is only ever lost to a `forget` plan that names it |
| `Retention.RetentionFloor` | siatt/memory/patch.py:332-376 | an id seen live at s and gone later was taken by a `forget` whose clock is at least s plus the floor, whatever happened between |
| `Forget.Found` | siatt/runner/forget.py:382-386 | a link protects the id it names and an id it resolves to, and nothing that it does not point at |
| `Forget.LinkedFromLiveIds` | siatt/runner/forget.py:360-390 | every id a live memory points at, itself apart, is protected, and only such ids are |
| `Forget.Collector.DueFor` | siatt/runner/forget.py:190-270 | the memories due at a stage, coldest first, with the protection counts they leave |
| `Forget.Collector.Decide` | siatt/runner/forget.py:142-171 | the plan is the proposal, archives first within one shared budget; what is over it is counted and nothing is lost from the count |
| `Forget.ColdestFirstPermutes` | siatt/runner/forget.py:210-213 | sorting loses and repeats nothing, and puts the coldest first |
| `ForgetDecisions.DecidesExactly` | siatt/runner/forget.py:142-241 | what is archived is, coldest first, what is outside the archive, below the threshold, unpinned, made and changed a floor ago and not linked, all of it unless the budget is spent; what is collected the same of the archive, past the grace period, with what is left of the budget |
| `ForgetDecisions.ColdestFirstIsStable` | siatt/runner/forget.py:210-213 | equally cold memories stay in the order of their paths |
| `ForgetDecisions.HeldBackCounts` | siatt/runner/forget.py:243-270 | every memory far enough gone is due or counted once, under the first of pinned, too recent and still linked |
| `ForgetPlans.ReadIsCorpus` | siatt/runner/forget.py:274-287 | reading an exact manifest gives every memory of the tree once |
| `ForgetPlans.ArchivesColdestFirst` | siatt/runner/forget.py:210-213 | nothing due that is left for next week is colder than anything archived |
| `ForgetPlans.CollectedIsOld` | siatt/runner/forget.py:215-270 | whatever is collected is archived, unpinned and past both the grace period and the floor |
| `ForgetPlans.FoldProposal` | siatt/memory/patch.py:332-376 | a proposal folds to one move for each archived memory and one removal for each collected one |
| `ForgetPlans.ProposalCompiles` | siatt/runner/forget.py:243-270 | no single patch that `forget` proposes is ever refused |
| `ForgetPlans.TouchesExactly` | siatt/memory/patch.py:380-389 | a proposal touches exactly two files for each archive and one for each delete |
| `ForgetPlans.FreeNamesKeepApart` | siatt/memory/patch.py:483-489 | a proposal whose archived titles give distinct names that are not on disk keeps its written paths apart |
| `ForgetPlans.LinksSurvive` | siatt/runner/forget.py:360-390 | after a `forget` plan every link of a live memory that resolved still resolves, but for a newly archived memory's path link to itself |
| `ForgetPlans.ProposalAccepted` | siatt/runner/forget.py:142-171 | the compiler accepts the proposal if and only if it fits the file cap, the archived memories' links resolve and hold no secret, and no memory kept in the archive links to a collected one |
| `ForgetPlans.ArchivedLinksKeepResolving` | siatt/memory/patch.py:430-440 | the links of newly archived memories resolve afterwards if they did before and are not paths back to themselves |
| `ForgetPlans.ResolvesAfter` | siatt/memory/patch.py:425-448 | a live memory's link resolves after the plan if and only if it resolved before, for an id, or leads to a memory that stays or to a name an archived one takes, for a path |
| `ForgetPlans.AcceptedBeforehand` | siatt/runner/forget.py:142-171 | with archive names that are free, the compiler accepts the proposal if and only if it fits the file cap, every link of an archived memory leads somewhere that lasts, no archived memory holds a secret, and no memory kept in the archive links to a collected one |
| `ForgetPlans.ProjectionIsOnDisk` | siatt/memory/manifest.py:85-119 | the projection those results speak of describes the tree with the plan's changes on it |
| `ForgetPlans.TakenAfterGrace` | siatt/runner/forget.py:215-241 | what a `forget` run takes was last written a grace period and a floor before |
| `ForgetLimits.TwoCreatesShareAPath` | siatt/memory/patch.py:250-258 | a plan of two creates at one path is accepted, and the accounts then disagree |
| `ForgetLimits.ArchiveLinkRefused` | siatt/memory/patch.py:449-465 | a proposal refused because an archived memory links to a collected one |
| `ForgetLimits.KeptLinkRefused` | siatt/memory/patch.py:449-465 | every proposal that collects a memory linked by id from the rest of the archive is refused |
| `ForgetLimits.ThirteenArchivesRefused` | siatt/config.py:335 | with a cap of twenty-five files every proposal of thirteen archives or more is refused |
| `ForgetLimits.ThirteenColdRefused` | siatt/config.py:316-335 | under the shipped limits a week with up to twenty distinctly titled cold memories is accepted if and only if there are twelve or fewer |
| `ForgetLimits.SelfLinkRefused` | siatt/memory/patch.py:483-489 | a proposal refused although every link resolved before, because archiving renames the file |
| `ForgetLimits.ReadMeansProtected` | siatt/runner/forget.py:274-287 | the links of every live memory whose file can be read are protected |
| `ForgetLimits.KeptWhileRead` | siatt/runner/forget.py:274-287 | what such a memory links to by id is never collected |
| `ForgetLimits.ReadableFileProtects` | siatt/runner/forget.py:274-287 | an old archived memory that a live one links to by id is not collected while the live file can be read, whatever protected set the run comes to |
| `ForgetLimits.BrokenFileUnprotects` | siatt/runner/forget.py:274-287 | once that file does not parse, whatever protected set the run comes to, the plan is to delete the memory, and it is accepted |
| `Index.FilesRun` | siatt/memory/index.py:166-236 | the files' statements, run to the end, reach the intended tables; stopped at any statement they leave the key intact |
| `Index.UniqueNeverFails` | siatt/memory/index.py:146-236 | over any runs, full or not, each stopped anywhere, no insert ever meets a chunk id already there |
| `Index.StateDeterminesRows` | siatt/memory/index.py:332-360 | two exact indexes with the same recorded hashes are the same index |
| `Index.RefusedStays` | siatt/memory/index.py:206-224 | a file whose id a later path holds is refused, and stays refused for the whole run |
| `Index.RepairedExactly` | siatt/memory/index.py:146-236 | from any keyed tables, wherever earlier runs stopped, one incremental run equals the full rebuild if and only if no listed memory is held under a later path, every listed file whose hash is recorded has its rows, and every row's path is recorded or listed |
| `Index.IncrementalIsFull` | siatt/memory/index.py:146-236 | after completed runs, one incremental run equals the full rebuild if and only if the index held no listed memory under a path later in the listing |
| `Index.FullIsUpToDate` | siatt/memory/index.py:146-236 | a full rebuild of files that all parse, with ids of their own, records exactly the listed paths, each with its hash and rows |
| `Index.SecondRunIdle` | siatt/memory/index.py:146-236 | a run on the full index changes nothing |
| `IndexContents.FullIndexHolds` | siatt/memory/index.py:332-360 | whatever is listed, a full rebuild holds a row for every chunk of the first file of each id, its text, path, scope, salience, pin and stamp those of the document, and that file's hash, and nothing else |
| `IndexContents.FullRunReports` | siatt/memory/index.py:186-236 | a full run reports those files as indexed and all others as problems |
| `IndexContents.ReportAccounts` | siatt/memory/index.py:186-236 | any run reports every listed file exactly once |
| `IndexContents.SecondRunReports` | siatt/memory/index.py:146-236 | whatever is listed, a run on the full index changes nothing, skips what is in it and reports the same problems |
| `IndexContents.FreshForesees` | siatt/memory/index.py:249-301 | before anything is indexed, what `freshness` calls changed is what a run indexes, and what it calls refused what that run reports |
| `IndexContents.WholeRunReaches` | siatt/memory/index.py:146-236 | run to its end, a full or incremental run's statements leave the intended tables, the gone paths forgotten |
| `IndexContents.ReplaceFailsExactly` | siatt/memory/index.py:206-224 | replacing a file's chunks fails if and only if another path has one of its id under a number it needs, which is why such a file is refused |
| `IndexRuns.MemoryIndex.IndexedAt` | siatt/memory/index.py:318-330 | finds another path holding the id's chunks if and only if there is one |
| `IndexRuns.MemoryIndex.Replace` | siatt/memory/index.py:332-360 | the path's old rows go, its new ones come, its hash is recorded, and no other row moves |
| `IndexRuns.MemoryIndex.Reindex` | siatt/memory/index.py:146-236 | the run's tables and report, from any keyed tables, full or incremental |
| `IndexRuns.RunsKeepExact` | siatt/memory/index.py:146-236 | completed runs keep the rows exactly what the recorded hashes call for |
| `IndexRuns.StoppedRunCanStick` | siatt/memory/index.py:332-360 | a run over an edited file stopped between its delete and its insert leaves the hash without its rows, and if the file goes back no number of incremental runs restores them |
| `IndexRuns.StoppedRunCanOrphan` | siatt/memory/index.py:179-184 | a first run stopped after its insert leaves rows nothing records; if the file moves, the new path is refused for good by the rows of the old |
| `IndexRuns.DamageIsForGood` | siatt/memory/index.py:146-236 | rows missing under a recorded hash, or rows of a path neither recorded nor listed, keep every later incremental run on that disk from reaching the full rebuild |
| `IndexKnots.KnotStays` | siatt/memory/index.py:206-224 | stale files each of whose ids is held under another of them keep their rows and are reported by every run, however many there are |
| `IndexKnots.SwappedIdsStick` | siatt/memory/index.py:206-224 | two listed files that swapped ids are refused by every run, whatever else is listed |
| `IndexKnots.ComesToFull` | siatt/memory/index.py:146-236 | from any keyed tables, some number of runs reaches the full rebuild if and only if recorded files have their rows, no row's path is unrecorded and unlisted, and no files keep each other out; one run more than there are files is then enough |
| `IndexRuns.Fresh` | siatt/memory/index.py:249-301 | the changed, removed and refused files a walk finds |
| `IndexRuns.StaleMeansWork` | siatt/memory/index.py:249-307 | with nothing archived and an index the next run would bring up to date, stale if and only if that run would change it |
| `IndexRuns.ArchivedLooksStale` | siatt/memory/index.py:270-273 | one archived memory makes a finished index look stale although a run changes nothing |
| `IndexRuns.FreshnessExact` | siatt/memory/index.py:249-307 | stale if and only if a listed file is not as recorded, a recorded one is gone, or an archived one is not as recorded; a run changes the index if and only if one of the first two holds or an archived file is recorded |
| `Civil.DecodeIsADate` | siatt/runner/cron.py:222-224 | every day number is a real date and encodes back to itself |
| `Civil.DecodeEncode` | siatt/runner/cron.py:222-224 | every date has one day number, leap years and year ends included |
| `Zones.ToUtcIsFirst` | siatt/runner/cron.py:178-186 | a wall reading that occurs at all converts to the first instant that shows it |
| `Zones.WithinGap` | siatt/runner/cron.py:178-186 | a reading inside a jump converts to nothing |
| `Zones.InstFires` | siatt/runner/cron.py:151-206 | every wall minute has an instant: its first pass, or the first minute past the gap that swallowed it |
| `Zones.InstMonotone` | siatt/runner/cron.py:151-206 | later wall minutes never fire earlier |
| `Zones.GapFiresExactly` | siatt/runner/cron.py:189-206 | a skipped wall minute fires at the first whole minute the clock shows after the jump |
| `Zones.AlreadyFired` | siatt/runner/cron.py:104-128 | every wall minute the clock has reached has fired, if and only if the clock is not within the minute after a forward jump that skips a whole minute and lands off one |
| `Cron.JumpIsSafe` | siatt/runner/cron.py:111-128 | skipping to the next month, day, hour or minute never passes over a match |
| `Cron.Instant` | siatt/runner/cron.py:151-176 | the instant a wall minute fires at, or nothing when that is not later than the moment |
| `Cron.NextAfter` | siatt/runner/cron.py:104-128 | ends, with the first minute on offer within the horizon, or none when there is none |
| `Cron.NextIsLeastMatch` | siatt/runner/cron.py:104-128 | without a zone the answer is the least matching minute after the moment |
| `Cron.NoneWithoutZone` | siatt/runner/cron.py:104-128 | without a zone it raises if and only if no minute of the horizon matches |
| `Cron.NextIsLeastInstant` | siatt/runner/cron.py:104-128 | with a zone the answer is the least later instant at which any matching wall minute fires, if and only if no matching minute that the clock jumped over is pending, or the first minute ahead matches |
| `Cron.NoneWithZone` | siatt/runner/cron.py:104-128 | with a zone no wall minute before the horizon's end is on offer if and only if it raises and no matching minute is pending |
| `Cron.PendingFiresAtStart` | siatt/runner/cron.py:104-128 | a pending minute is behind the walk's start and fires at the very instant the start does |
| `Cron.MonroviaMisses` | siatt/runner/cron.py:104-128 | ten seconds after Monrovia's jump of 7 January 1972, `0 0 7 1 *` is due and still to fire that day, and the answer is later |
| `Cron.FiresOnFirstPass` | siatt/runner/cron.py:151-176 | what fires is the first of all instants with its wall reading, so a repeated hour fires once |
| `Cron.SkippedStillFires` | siatt/runner/cron.py:189-206 | a matching minute of a jump still ahead, that the clocks skip, fires within a minute of the jump |
| `Cron.FiredMinuteMatches` | siatt/runner/cron.py:95-102 | at the instant that fires, the wall shows the matching minute, or the first whole minute after the jump that skipped it |
| `Cron.LeapDayOutOfReach` | siatt/runner/cron.py:31-33 | from midnight after the leap day before a skipped one, for 1457 days, nothing that falls on 29 February alone is found to fire, whatever its times and weekdays |
| `Cron.LeapDayReached` | siatt/runner/cron.py:31-33 | from every start, `0 0 29 2 *` is taken never to fire if and only if the first midnight is within 1457 days past the leap day before a skipped one |
| `Cron.Around2100` | siatt/runner/cron.py:31-33 | between the leap days of 2092 and 2104 those midnights are the ones from 1 March 2096 to 25 February 2100 |
| `CronFields.Field` | siatt/runner/cron.py:227-233 | every part's values together or the first part's problem; what is read is never empty and never out of range |
| `CronFields.Parse` | siatt/runner/cron.py:63-85 | five fields within their ranges, and "either day" exactly when neither day field begins with a star |
| `CronFields.WrittenReadsBack` | siatt/runner/cron.py:227-270 | any values of a field written in decimal between commas read back as the same set |
| `CronSchedules.PartMeans` | siatt/runner/cron.py:236-270 | a part written as a star, a number or a range, stepped or not, reads as the values it names, or as the first thing wrong with it |
| `CronSchedules.FieldMeans` | siatt/runner/cron.py:227-233 | parts between commas read as all they name, and not at all if one of them is wrong |
| `CronSchedules.MatchesMeans` | siatt/runner/cron.py:95-135 | an expression matches a date and time if it names the minute, hour and month, and the day by date and weekday, or by either if both are narrowed; weekdays count from a known Sunday |
| `CronSchedules.ScheduleMeans` | siatt/runner/cron.py:63-135 | the same from the five fields as they are written |
| `CronSchedules.WeeklyMeans` | siatt/runner/cron.py:133-135 | `0 4 * * d` is due at four in the morning on 7 January 2024 plus d days and every seventh day from it, and at no other minute |
| `CronSchedules.FirstsAndMondays` | siatt/runner/cron.py:46-55 | `0 0 1 * 1` is due at midnight of every first of a month and every Monday, and at no other minute |
| `CronSchedules.OddMondays` | siatt/runner/cron.py:50-55 | `0 0 */2 * 1` is due at midnight of Mondays on an odd day, and at no other minute |
| `Transcript.SuffixWellFormed` | siatt/llm/types.py:155-163 | cutting a transcript where a turn starts separates no call from its answer |
| `Agent.Session.DispatchAll` | siatt/core/agent.py:645-677 | as many results as calls before the first that raises, each the content and error flag its tool gave under its call's id; and when one raises, the message that answers the calls that never ran, if it is stored |
| `Agent.Session.Respond` | siatt/core/agent.py:321-451 | the stored transcript, the outcome and the number of model calls of a whole turn, wherever a call, a tool, the pictures or the storing of a message interrupts it |
| `Agent.DispatchAnswers` | siatt/core/agent.py:645-677 | however dispatch ends, its message answers every call once and in order |
| `AgentTurns.DispatchExactly` | siatt/core/agent.py:645-677 | the calls are made in order up to the first that raises, and each result is what its tool gave, unchanged, under its call's id |
| `AgentTurns.FilledExactly` | siatt/core/agent.py:660-677 | when one raises, what is stored is the results so far and one error, with the cancellation text, for it and each later call |
| `AgentTurns.TurnStores` | siatt/core/agent.py:369-451 | a turn stores each reply that goes on with the results its tools gave and the pictures, and then what its last iteration adds; how it ends and how many model calls it made follow from that iteration |
| `Agent.TurnLeavesItWellFormed` | siatt/core/agent.py:369-451 | a turn leaves every call answered by the next message if and only if it comes to no iteration that strands one: a reply with calls stored, then cut, or under another stop reason, or its answer never made or not stored; at most max plus two model calls |
| `Agent.HonestTurnsReplay` | siatt/core/agent.py:369-451 | with replies that report tool use whenever they call tools, readable pictures, and nothing cut while it is stored, every turn leaves a transcript that can be replayed |
| `Agent.TurnOnlyAppends` | siatt/core/agent.py:369-451 | a turn changes nothing said before it |
| `Agent.ConversationWellFormed` | siatt/core/agent.py:570-607 | over any turns, interrupted anywhere or not, the conversation can be replayed if and only if none of them strands a call; what one leaves unanswered no later turn repairs |
| `Elision.ElisionNames` | siatt/core/context.py:405-419 | an elided text is a head, a marker counting exactly what went, and a tail, cut at line ends where there are any |
| `Elision.ElisionShortens` | siatt/core/context.py:405-419 | an elided text is strictly shorter than it was |
| `Elision.ElidesFrom655` | siatt/core/context.py:405-409 | which texts are elided depends on their length alone: 655 characters and up |
| `Elision.ElidedAgain` | siatt/core/context.py:405-419 | what elision leaves is elided again if and only if it still has 655 characters; for a text with no line ends, if and only if it had 700 |
| `Elision.ElisionCanCostMore` | siatt/core/context.py:405-419 | eliding ASCII with no line ends costs more tokens if and only if it has 655 to 657 characters, and then one |
| `Elision.ElisionWeighs` | siatt/core/context.py:405-419 | the change in weight, to the quarter token: the part dropped against 58 and the digits of its length |
| `Elision.ElisionSaves` | siatt/core/context.py:405-419 | from 660 characters on, whatever the text, eliding never costs tokens |
| `Elision.CountNearlyAdds` | siatt/llm/tokens.py:49-55 | counting two texts apart is off by at most one token either way |
| `Elision.EveryTextCosts` | siatt/llm/tokens.py:49-55 | no text but the empty one is free, and the estimate falls short by at most a quarter token |
| `Elision.CountNotSubadditive` | siatt/llm/tokens.py:49-55 | two texts can together cost a token more than apart |
| `Elision.Truncate` | siatt/core/context.py:435-456 | ends, for any tokenizer; returns the text, nothing, or the marker after a trimmed head, the first that fits of the proportional one and those a tenth shorter each time, as the budget allows |
| `Elision.ClosedMeans` | siatt/core/context.py:453-456 | a trimmed head ends at its last paragraph break if that is past its middle, loses its trailing space, and gets the marker |
| `Elision.TruncationFits` | siatt/core/context.py:435-456 | with the heuristic tokenizer a truncated text is within its budget, to the token |
| `Turns.GroupTurns` | siatt/core/context.py:329-349 | the loop finds the exchanges of a transcript |
| `Turns.GroupsCutAtTurns` | siatt/core/context.py:329-349 | exchanges join up to the transcript, and begin at every message that starts a turn and nowhere else |
| `Turns.CutIsUnique` | siatt/core/context.py:329-349 | there is only one such way to cut a transcript |
| `Context.ElideMessage` | siatt/core/context.py:387-396 | the elided blocks, and a running saving equal to the recomputed one |
| `Context.TurnCosts` | siatt/llm/tokens.py:91-113 | a turn costs the tokens of every text in it, the estimates for its pictures, and four for each message |
| `Context.FirstFit` | siatt/core/context.py:375-402 | how far compaction goes: the fewest messages, oldest first, after which the turn fits, or all |
| `Context.CompactToolResults` | siatt/core/context.py:352-402 | oldest first, the fewest messages after which the turn fits, or all, have every result that elision shortens elided, unless that leaves their cost as it was; all others are untouched; what is still over the budget is so with every message elided |
| `Context.CountsShortened` | siatt/core/context.py:375-402 | the count is of the results that elision shortens in the messages gone through |
| `Context.CompactionKeepsShape` | siatt/core/context.py:352-402 | every block, id, role and place is kept, only result texts change, and messages past the first fit not at all |
| `Context.PackRecent` | siatt/core/context.py:292-326 | the transcript from a turn's head on, as many of the newest turns as fit and always the newest, the others as they were and the newest compacted as above; within budget unless it is alone; the cost reported is the cost recomputed, and the count of shortened results the newest turn's; well-formed in, well-formed out |
| `Context.PackedIsASuffix` | siatt/core/context.py:292-326 | what is packed is the transcript's end from a turn's head on, unchanged but for the newest turn's compaction |
| `Context.PackingKeepsPairs` | siatt/core/context.py:292-326 | packing a well-formed transcript leaves it well formed |
| `Context.Fit` | siatt/core/context.py:422-432 | keeps the longest prefix that fits |
| `Candidates.Merge` | siatt/memory/retrieve.py:873-893 | one candidate for each chunk, in order of first appearance, joining all that was said of it |
| `Candidates.FirstSeenIsEveryChunkOnce` | siatt/memory/retrieve.py:873-893 | merging repeats no chunk, loses none, and keeps the order in which they first appear |
| `Candidates.JoinedKeepsEvidence` | siatt/memory/retrieve.py:880-892 | a chunk any source ranked stays ranked by that source, with scores at least any source's |
| `Candidates.JoinedIsFirstAndBest` | siatt/memory/retrieve.py:880-892 | a merged candidate is the first of its chunk, with each rank the first that any has and the best scores of all |
| `Candidates.CarryHeaderRank` | siatt/memory/retrieve.py:587-612 | a title hit ranks every prose chunk of its memory, adds a header only if there is no prose, and leaves other memories alone |
| `Candidates.CarryVectorRank` | siatt/memory/retrieve.py:534-555 | a vector hit on a header improves the memory's prose, never displaces it |
| `Candidates.Collect` | siatt/memory/retrieve.py:513-555 | no header is ever a candidate while its memory has prose, and every prose hit is; with chunk ids unique, lexical ranks are the places among the prose hits, header and vector ranks are places of hits on the candidate's memory with that hit's distance, and every hit ranks some candidate of its memory |
| `Candidates.PinnedProseFirst` | siatt/memory/retrieve.py:862-870 | a pinned header is kept only if the memory has no prose |
| `Candidates.MergedProseFirst` | siatt/memory/retrieve.py:873-893 | merging keeps that rule |
| `Packing.Packer.Take` | siatt/memory/retrieve.py:748-757 | takes a candidate if and only if it fits what is left |
| `Packing.Packer.TakePinned` | siatt/memory/retrieve.py:759-767 | pinned candidates in rank order, the first of each memory, each taken if it fits, up to the limit: the pass that `LeftOutForRoom` and `PinnedUndisturbed` are about |
| `Packing.Packer.TakeWidth` | siatt/memory/retrieve.py:769-783 | in rank order one chunk of each memory not packed yet, each taken if it fits, up to a limit of its own; pinned ones are left to their pass when they have one: the pass that `LeftOutForRoom` and `DepthFollowsWidth` are about |
| `Packing.Packer.TakeDepth` | siatt/memory/retrieve.py:785-805 | in rank order the further chunks of memories already packed, each taken if it fits, up to a limit of its own: the pass that `LeftOutForRoom` and `DepthFollowsWidth` are about |
| `Packing.Pack` | siatt/memory/retrieve.py:710-818 | the three passes in order, and the chosen in rank order split by destination |
| `PackingLaws.PassTakes` | siatt/memory/retrieve.py:748-805 | in rank order a pass takes a candidate if and only if it is under its limit, the candidate is the pass's to take, and its rendered line fits the budget |
| `PackingLaws.PackedSplits` | siatt/memory/retrieve.py:806-818 | what is kept goes out in rank order, the lines of pinned candidates to one destination and of all others to the other |
| `PackingLaws.KeptAreChosen` | siatt/memory/retrieve.py:806-818 | what is kept is every candidate whose chunk a pass chose |
| `PackingLaws.PackedFits` | siatt/memory/retrieve.py:710-818 | what is packed is a subsequence of the ranking, weighs what the trace says, fits the budget and is at most three limits long |
| `PackingLaws.LeftOutForRoom` | siatt/memory/retrieve.py:759-805 | a pass that took fewer than its limit left nothing of its own that fits in the final leftover |
| `PackingLaws.DepthFollowsWidth` | siatt/memory/retrieve.py:785-805 | every packed chunk belongs to a memory the first passes packed, each with exactly one chunk |
| `PackingLaws.PinnedUndisturbed` | siatt/memory/retrieve.py:719-731 | two rankings that agree on pinned candidates pack the same pinned snippets, so the cacheable prefix does not depend on the question |
| `SessionActors.SessionActor.Post` | siatt/core/session.py:119-136 | the event joins the end of the mailbox with a new future, or is refused because the actor is closing or full |
| `SessionActors.SessionActor.Get` | siatt/core/session.py:149-157 | what leaves the mailbox: a turn, a cancelled event dropped, or the end |
| `SessionActors.SessionActor.Finish` | siatt/core/session.py:165-173 | the turn is over and its future is settled unless it already was |
| `SessionActors.SessionActor.RequestClose` | siatt/core/session.py:138-145 | the stop request goes behind everything queued, once |
| `SessionActors.SessionRouter.Deliver` | siatt/core/session.py:226-231 | the event goes to the session's one actor, made if there is none; no other actor changes; a closed router refuses |
| `SessionActors.SessionRouter.Pop` | siatt/core/session.py:252-253 | the actor leaves the router and is asked to stop; no other actor changes |
| `SessionLaws.StepKeeps` | siatt/core/session.py:119-270 | every step keeps the invariant that one actor of a session has work and it is the one its next event goes to |
| `SessionLaws.OneTurnAtATime` | siatt/core/session.py:119-270 | in every interleaving whose sweep only pops actors with nothing left to run, turns of a session never overlap, start in posting order, at most once, and an event nobody was told about is running or queued, its actor alive unless killed |
| `SessionLaws.SettledOnce` | siatt/core/session.py:161-173 | whatever the interleaving, a future once settled never changes |
| `SessionLaws.AnsweredMeansRan` | siatt/core/session.py:155-173 | whatever the interleaving, an event is only ever reported answered or failed after its turn started |
| `SessionLaws.UnsafePopOverlaps` | siatt/core/session.py:244-253 | that condition is exact: from any state any interleaving reaches, after unsafe pops or none, a pop of an actor with something left to run can be followed by two turns of its session at once |
| `SessionLaws.SweepCanPopABusyActor` | siatt/core/session.py:244-253 | the sweep as written reaches such a pop, and the overlap |
| `SessionLimits.MailboxesBounded` | siatt/core/session.py:119-136 | in every interleaving no mailbox holds more events than the limit |
| `SessionLimits.DeliverExactly` | siatt/core/session.py:226-231 | an event is taken if and only if the router is open and its session's actor, if any, less than the limit behind; it then joins the end of that actor's mailbox with a new future |
| `SessionLimits.FateHasACause` | siatt/core/session.py:149-173 | what a caller is told was told it by one step, while it waited: its turn returned, or raised, or it gave up, or its actor was killed in its turn |
| `SessionLimits.SettlingSettles` | siatt/core/session.py:149-173 | and each of those steps does tell it, if it is waiting |
| `SessionLimits.ClosedStaysClosed` | siatt/core/session.py:233-242 | after the router closes no event is ever taken |
| `SessionLimits.CloseAsksAll` | siatt/core/session.py:233-242 | closing asks every actor of the router to stop, behind what it has queued |
| `SessionLimits.ClosingEnds` | siatt/core/session.py:138-157 | an actor asked to stop ends when it has been through its mailbox, and not before |
| `SessionLimits.KilledForGood` | siatt/core/session.py:149-173 | an actor that is killed is in no turn from then on and starts none |
| `Leases.OneHolder` | siatt/memory/lease.py:148-178 | whatever fails or crashes, and when, at most one process holds the lease |
| `Leases.TakeoverIsFromACrash` | siatt/memory/lease.py:156-165 | a row that `acquire` finds names a process that crashed |
| `Leases.RowUnderFreeLock` | siatt/memory/lease.py:172-178 | a row that stands while the lock is free names a process that crashed |
| `Leases.FoundIsTheRow` | siatt/memory/lease.py:156-168 | what `acquire` reports as taken over is the row that it then overwrites |
| `Leases.RowIsWhatWasWritten` | siatt/memory/lease.py:156-178 | the row is always what the last statement that took effect left, a failing one included |
| `Leases.ProbeRightIfRowStands` | siatt/memory/lease.py:211-223 | the probe's report is right if the row it read still stands when it has the lock |
| `Leases.ProbeCanAccuseTheLiving` | siatt/memory/lease.py:211-223 | as written, it can report a process that released in good order |
| `Leases.LeakedLockStarves` | siatt/memory/lease.py:152-168 | after a store error under the lock, nobody takes the lease until that process dies |
| `Leases.Lease.Acquire` | siatt/memory/lease.py:148-169 | lock, then row: what is held, found and written, and what a busy lock or a failing store leaves |
| `Leases.Lease.Release` | siatt/memory/lease.py:171-178 | row, then lock; a failing store leaves both |
| `Leases.AcquireThenRelease` | siatt/memory/lease.py:148-178 | undisturbed, the steps take lock and row and leave neither |
| `Drain.Drainer.Offer` | siatt/core/drain.py:146-157 | asks for the free slots only, leaving out everything in flight |
| `Drain.Drainer.Launch` | siatt/core/drain.py:158-173 | one task for every leased item that is not already running |
| `Drain.Drainer.Forgets` | siatt/core/drain.py:175-176 | an ended task's item leaves the in-flight map, as the step `Forget` of the runs has it |
| `Drain.OneTaskPerItem` | siatt/core/drain.py:145-173 | whatever the queue hands out, no item is ever run twice at once and no more than `concurrency` run |
| `Drain.ReportsExactlyOnce` | siatt/core/drain.py:178-191 | a task that began reports exactly once, however it was cancelled: complete if its work returned, fail if it raised, release if it was cut short; one that never began reports nothing |
| `Drain.SettledMeansOver` | siatt/core/drain.py:226-236 | after settling nothing is in flight and every task is over |
| `Drain.HonestQueueStartsAll` | siatt/core/drain.py:150-165 | with a queue that honours `exclude` everything leased is started, even when leases expire under running work |
| `Drain.AnswerStarts` | siatt/core/drain.py:158-173 | every item a lease hands out is in flight afterwards, under the task it had or else a new one |
| `Drain.UndisturbedTask` | siatt/core/drain.py:175-191 | a task that nothing disturbs reports what its work earned, leaves the map, and changes nothing else |
| `Drain.SettlesWhenAllAreOver` | siatt/core/drain.py:226-236 | settling waits exactly until nothing is in flight |
| `Chunks.SplitOnHeadings` | siatt/memory/chunk.py:90-101 | the non-empty sections between heading starts |
| `Chunks.SplitToSize` | siatt/memory/chunk.py:104-125 | the section whole, or filled paragraph by paragraph |
| `Chunks.FoldShortTails` | siatt/memory/chunk.py:128-139 | short pieces joined to the one before where the guard allows |
| `Chunks.SplitBody` | siatt/memory/chunk.py:68-73 | headings, then size, then folding |
| `ChunkCuts.SectionsCutAtHeadings` | siatt/memory/chunk.py:90-101 | a section is what lies between one heading and the next, each heading at the start of its own |
| `ChunkCuts.ParagraphsBetweenGaps` | siatt/memory/chunk.py:104-111 | the paragraphs are exactly what the gaps leave |
| `ChunkCuts.LongIsCutAtTheCap` | siatt/memory/chunk.py:119-122 | what is over the cap is cut into pieces of exactly 1200 characters, nothing left out |
| `ChunkCuts.FoldedInRuns` | siatt/memory/chunk.py:128-139 | a piece is folded into what is before it if and only if it is under 120 characters and the two come to at most 1200 |
| `ChunkLaws.SplitKeepsTheText` | siatt/memory/chunk.py:68-139 | for any headings and gaps no visible character is lost or moved, no piece is empty or over 1202 characters, and no short tail stands where it could have been folded |
| `ChunkLaws.ParagraphsStayWhole` | siatt/memory/chunk.py:104-125 | unless a paragraph alone is over the cap, cuts fall between paragraphs and every piece takes as many as fit |
| `ChunkLaws.CapExceeded` | siatt/memory/chunk.py:128-139 | the bound is met: a body that comes out as one piece of 1202 characters |
| `ChunkLaws.SplitOverCap` | siatt/memory/chunk.py:128-139 | a body has a piece over the cap if and only if the fold joins two whose lengths come to 1199 or 1200 |

## Left out

- `ForgetPlans.ProposalAccepted`: asks that the written paths be apart, since an archive's fallback name is not checked again (siatt/memory/patch.py:487-489); distinct titles whose names are free see to it (`FreeNamesKeepApart`).
- `ForgetPlans.AcceptedBeforehand`: asks for such titles.
- `ForgetPlans.LinksSurvive`: a memory that is being archived may lose a path link to itself, which `SelfLinkRefused` shows it can.
- `ForgetPlans.ArchivedLinksKeepResolving`: one way only; `ResolvesAfter` has both.
- `Retention.RetentionFloor`: asks that every attempt keep its written paths apart, for the same reason; without that a memory can be overwritten, as `TwoCreatesShareAPath` shows.
- `Retention.AlwaysDescribed`: asks the same; `GuardedStaysDescribed` asks only for the missing check.
- `Retention.OnlyForgetLoses`: asks the same.
- `PatchEffects.MergeAccepted`: asks that no file stand at a source's longer archive name; with a readable one there, a source named twice is found again.
- `PatchEffects.MergeWrites`: asks that live paths and the target's file be their memories' own, as they are on a described tree.
- `PlanEffects.AcceptedLeaves`: asks that nothing be overwritten, for which `GuardIsExact` has the condition.
- `PlanEffects.UpdateStands`: one way, since a later patch may write the same again.
- `Changeset.Project`: where several ids share a path the id given up is any of them, since which one depends on dictionary order.
- `PatchCompiler.Compiler.Compile`: the wording and the order of whole-plan reasons are not modelled, only whether there are any.
- `IndexRuns.StaleMeansWork`: asks for what `RepairedExactly` asks, as does `FreshnessExact`; with ids held later, or rows damaged, stale and work to do can differ.
- `Index.UniqueNeverFails`: the vector table beside the chunks is not part of this model.
- `Cron.SkippedStillFires`: the jump must be ahead of the moment, and the minute before the horizon's end.
- `Cron.LeapDayOutOfReach`: one way only, for whatever falls on leap days; `LeapDayReached` is exact for midnight on any weekday.
- `CronFields.Field`: `int` is a parameter, so which spellings of a number it accepts is not modelled.
- `Agent.ConversationWellFormed`: the ids of one reply are distinct, a reply holds no tool results, and pictures are neither calls nor results.
- `Agent.Session.Respond`: an interrupted append is stored or it is not; the delivery of attachments and the recall that opens the turn are not modelled.
- `Elision.Truncate`: the first cut is computed exactly, where the source multiplies floats; the result's guarantees do not depend on it.
- `Context.PackRecent`: the widening of the history read from the store to a turn's head happens before it and is not part of this model.
- `Leases.OneHolder`: one lease object for each process, and process ids are never reused.
- `Leases.ProbeRightIfRowStands`: one way only, since a crashed holder's row may have been taken over before the probe looks again.
- `SessionLaws.OneTurnAtATime`: an actor whose task is killed stays in the router and keeps its queue; what it holds is then never run.
- `Leases.Lease.Acquire`: runs without interference; interference is what the step lemmas are about.
- `Drain.ReportsExactlyOnce`: counts the call that reports; a cancellation inside that call can cut it short, and what the queue then did is not known.
- `Drain.OneTaskPerItem`: one batch is started at a time; `drain_once` beside a running `run` is not modelled.
- `Chunks.SplitBody`: the two patterns are parameters that find increasing headings and gaps of space; their regular expressions are not modelled.
- YAML, Markdown and wikilink parsing: a file is its parsed memory or does not parse; Pydantic's coercions are a validity predicate.
- Attachments: pruning of references, the sweep of stored files, and pictures in messages beyond their cost.
- Secrets: a predicate on documents; redaction itself is not modelled.
- Path normalisation, symbolic links and case-insensitive file systems: a path is a string.
- Files a run cannot read: the planning theorems are about an exact manifest, whose files all parse; `BrokenFileUnprotects` is about one that does not.
- Embeddings, full-text ranking, salience and recency curves, query building and reranking: scores and rankings are given.
- Pinned, retrieved and episode segments beyond `Fit` and `Truncate`: joining of strings.
- Date and time overflow: instants are unbounded integers and zones are lists of offset transitions spaced wider than their jumps.
- Git, the remote, pull requests, providers, adapters, fetching, search, images, the command line and start-up checks: outside calls and wrappers.
- Attempt counting and lease expiry inside the queues: SQL that is not part of this model.
