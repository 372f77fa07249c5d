# Verification models: catalogue clean-up, quota tables, crawl tasks, previews

Four components of the repository are modelled here, each as imperative Dafny where the
original updates state in place and as functions where it computes, and each is proved
against a specification that is much simpler than the code.

**Catalogue clean-up.** `Catalogue` is the database: archives, file mounts, stored assets,
ingest events. `DisjointSets` is the union-find over a parent dictionary, with path halving
and no ranks. `Components` runs it over the identity keys and shows that the classes are
exactly the chains of shared keys. `IdentityKeys` says what a shared key implies about region,
period and title. `CleanupReport` is the planner: it reads the keys, chooses the archive to keep
per group, and fills and sorts the actions. `CleanupApply` is the applier: it re-derives the
plan, refuses drift, and withdraws and relinks in place. `CleanupSafety` is about one round of
the two: nothing is lost. `PlainPlan` says the plan, its outcome and its log on the rows of the
database alone. `CleanupRounds` is about repeating them, with rows read in any order
each time: everything settles in two rounds.

**Quota tables.** `TableGrid` expands cells with spans into a grid; tilings are its
specification, and `CellReach` says what any rows of cells show. `CompositeTables` writes grids
back as markup and splits composite tables; `TableCuts` says what that comes to.
`Materials` says what the material rows of a table come to. `FeeVerification` emits the rows of
a table with their verification totals; `PrintedRows` says what a project prints from the cells
alone. `CrossPageJoin` is the flat row list with its index of
blank rows, and the splicing of continuation tables. `JoinedBlocks` is the list seen as one
block per project, which the flat list refines; `JoinedFiles` takes this to whole files, and
`QuotaFile` to the pages as they are read, where the projects seen so far decide which tables
are continuations; `PageKinds` says what a page comes to, `MixedFiles` what holds even where
rows go astray. `SectionNumbers` has the layered section state and its reconstruction from
printed codes, `HeadingCodes` what each heading prints.

**Crawl tasks.** `TaskRules` holds the transitions of a task, `TaskProtocol` all
interleavings of schedulers and workers over a shared table and a clock, `TaskOutcomes` what
each of their moves does field by field, `WorkerDrain` one
worker and the drain of one loop round, `IssueRun` the run over discovered issues, `IssueKinds`
what becomes of each, `ScanCalendar` the search for the next scan, `CalendarDays` the same in day
numbers, `Scheduler` the rounds that create tasks, and `DueSources` which sources they give one.

**Previews.** `NoticeFilter` is the streaming HTML filter against a recursive filter on
document trees, `PreviewTags` goes through the tags. `MergedCells` lays out merged ranges and
reuses the tilings of `TableGrid`; `SheetFaces` says what they make of each cell.

Fees and totals are integer cents; quantities and prices are exact reals, and how an amount is
rounded to cents is a parameter. Identifiers are strings, moments are calendar fields in one
fixed-offset zone. Where the database may return rows in any order, the model takes any order.
Normalised values (URLs, titles, periods, hash prefixes) are stored as normalised. What
the original runs as a loop is a method whose contract equates the new state with a function of
the old one; the lemmas are about that function, and say of each what it means in the terms of
the input alone.

Nine places where the code does less than its surroundings suggest are stated as theorems, each
with an input and the exact condition:

- A hash key always tells titles apart; a URL key does so exactly when no bar inside the title is
  followed by a URL (`UrlKeyDeterminesLabel`, `SafeTitleExactly`; input `UrlInTitleCollides`).
- One clean-up round is not always enough (`SecondRoundExactly`; input `TwoRoundsCanBeNeeded`).
- The backward scan for the management-fee row does not stop at its block's head, so continuation
  rows can land in another project's block, and then the project's own total is not raised
  (`LandsOwnExactly`, `OwnTotalRaisedExactly`; input `StrayFile`).
- One flawed quota table in a composite table takes the sound ones beside it out of the list
  (`SoundPartsExactly`; input `FlawHidesNeighbour`).
- Completion and failure do not look at who holds the task. A run is safe exactly as long as
  every report would have passed such a look: the row is pending or running, and not under
  somebody else's unexpired lease (`SafeExactly`; input `LateFailureReopens`).
- A failure writes the attempt read at leasing plus one, so a late one can throw the count back
  and a task can be retried too often. Attempts count failures exactly as long as no failure is
  reported on a row that has more attempts by then (`AttemptsCountExactly`; input `OneRetryTooMany`).
- With early stopping, the default, a run that crashed and starts again can stop before it has
  caught up (`RerunExactly`; input `CrashLosesIssue`).
- A void first match makes the notice filter write its neighbours (`StreamingIsRecursive`;
  input `VoidMatchLeaks`).
- A merged range with a blank corner can stick out of the rendered table (`PreviewTilesExactly`;
  input `EmptyHeadingSticksOut`).

## Model

| member | source | states |
|---|---|---|
| Catalogue.ReadableExact | file_asset_service/app/catalog_cleanup_report.py:62-69 | an archive counts as readable iff some mount of it resolves to a stored asset |
| DisjointSets.Forest.constructor | file_asset_service/app/catalog_cleanup_report.py:163 | every archive starts alone, and the links are sound |
| DisjointSets.Forest.Find | file_asset_service/app/catalog_cleanup_report.py:165-169 | terminates, returns the root of the element's class, and halving changes no class |
| DisjointSets.Forest.Union | file_asset_service/app/catalog_cleanup_report.py:171-174 | exactly the two classes become one, whose root is the left one |
| DisjointSets.HalvingKeepsSound | file_asset_service/app/catalog_cleanup_report.py:166-168 | pointing a node at its grandparent keeps links acyclic and inside their class |
| DisjointSets.LinkingKeepsSound | file_asset_service/app/catalog_cleanup_report.py:173-174 | linking one root under another keeps links acyclic and merges the classes |
| Components.SharedKeyKeepsExact | file_asset_service/app/catalog_cleanup_report.py:179-180 | after the union for a shared key, same class is again the same as linked by a chain of shared keys |
| Components.FreshKeyKeepsExact | file_asset_service/app/catalog_cleanup_report.py:181-182 | a key nobody carried yet links nothing |
| Components.ReadKey | file_asset_service/app/catalog_cleanup_report.py:178-182 | one key of one archive keeps classes and first carriers exact for the keys read so far |
| Components.ReadArchive | file_asset_service/app/catalog_cleanup_report.py:177-182 | likewise for all the keys of an archive, in any order |
| Components.Classes | file_asset_service/app/catalog_cleanup_report.py:163-182 | two archives share a class iff a chain of shared keys links them |
| Components.Group | file_asset_service/app/catalog_cleanup_report.py:184-187 | every archive is in exactly one group; a group is all archives linked to its root, in reading order |
| Components.MembersExact | file_asset_service/app/catalog_cleanup_report.py:184-187 | a group's members are exactly the listed archives linked to its root |
| Components.MembersOfLinked | file_asset_service/app/catalog_cleanup_report.py:184-187 | linked archives name the same group, member by member |
| IdentityKeys.HashKeyReadsBack | file_asset_service/app/catalog_cleanup_report.py:152-154 | a hash key gives back label and hash, whatever bars the title holds |
| IdentityKeys.UrlKeyDeterminesLabel | file_asset_service/app/catalog_cleanup_report.py:152-154 | a URL key determines its label iff only the joining bar of "title, bar, URL" is followed by a URL |
| IdentityKeys.SafeTitlesReadBack | file_asset_service/app/catalog_cleanup_report.py:152-154 | two titles in which no bar is followed by a URL never share a URL key |
| IdentityKeys.SafeTitleExactly | file_asset_service/app/catalog_cleanup_report.py:152-154 | a label is told apart from all such labels, under all URLs, iff its own title is such a title |
| IdentityKeys.UrlInTitleCollides | file_asset_service/app/catalog_cleanup_report.py:152-154 | two titles and two normalised URLs that make the same key |
| IdentityKeys.SharersHaveOneLabel | file_asset_service/app/catalog_cleanup_report.py:152-154 | archives that share a key agree in region, period and normalised title |
| IdentityKeys.ChainHasOneLabel | file_asset_service/app/catalog_cleanup_report.py:152-187 | so do all archives of a chain, hence of a component |
| IdentityKeys.WithdrawnAgreesWithKept | file_asset_service/app/catalog_cleanup_report.py:208-224 | a withdrawn archive agrees with the one kept in region, period and title |
| CleanupReport.CandidatesExact | file_asset_service/app/catalog_cleanup_report.py:103-132 | candidates are the tenant's assets with a fitting hash prefix, or, only if there is none, those with a fitting URL |
| CleanupReport.Recoveries | file_asset_service/app/catalog_cleanup_report.py:103-146 | one recovery per orphan mount, in order |
| CleanupReport.PeersExact | file_asset_service/app/catalog_cleanup_report.py:184-192 | the group of an archive is the active archives linked to it |
| CleanupReport.CollectKeys | file_asset_service/app/catalog_cleanup_report.py:91-161 | the records loop gives each active archive exactly its identity keys |
| CleanupReport.WithdrawGroup | file_asset_service/app/catalog_cleanup_report.py:192-224 | all members but the kept one are withdrawn, iff the kept one is ready |
| CleanupReport.WithdrawGroups | file_asset_service/app/catalog_cleanup_report.py:189-224 | the group loop, in any order, builds exactly the withdrawals of the plan |
| CleanupReport.RepairRest | file_asset_service/app/catalog_cleanup_report.py:226-249 | the repair loop completes it to the whole plan |
| CleanupReport.BuildReport | file_asset_service/app/catalog_cleanup_report.py:57-254 | the actions are exactly the plan, at most one per archive, in report order |
| CleanupReport.Insert | file_asset_service/app/catalog_cleanup_report.py:251-254 | insertion keeps the list ascending and adds just the one action |
| CleanupReport.SortActions | file_asset_service/app/catalog_cleanup_report.py:251-254 | the listing holds every action once, ascending in kind, region, period, archive |
| CleanupReport.ListingUnique | file_asset_service/app/catalog_cleanup_apply.py:86-88 | a plan has one listing, so comparing listings compares plans |
| PlainPlan.StandInsAre | file_asset_service/app/catalog_cleanup_report.py:103-132 | which assets can stand in for a missing file, on the rows of events and assets: those of the tenant with a hash prefix that an event of the mount or file names, or, if there is none, those with one of its URLs |
| PlainPlan.EvidenceIs | file_asset_service/app/catalog_cleanup_report.py:112-133 | the evidence of a reference is those prefixes, and those URLs only if no hash fits |
| PlainPlan.KeysAre | file_asset_service/app/catalog_cleanup_report.py:96-154 | an archive has a key iff it has region, period and title, for each of its URLs and for each hash of a stored file or of the one asset that can stand in for a missing one |
| PlainPlan.KeptIsBest | file_asset_service/app/catalog_cleanup_report.py:45-54 | of a group the first of the best is kept: readable, then not rebuilt, then furthest in status, then oldest, then read first |
| PlainPlan.ActionsAre | file_asset_service/app/catalog_cleanup_report.py:192-249 | an active archive is withdrawn iff another one is kept that can be read or repaired; else, if a file is missing, it is redundant, relinked or for manual review as its files decide; with all fields and references of the action |
| PlainPlan.ListingOrderIs | file_asset_service/app/catalog_cleanup_report.py:251-254 | the listing goes by action name, region, period and archive, each in code-point order |
| CleanupApply.Session.AddEvent | file_asset_service/app/catalog_cleanup_apply.py:53-72 | one event, one outbox row pointing at it, one audit row |
| CleanupApply.Session.Withdraw | file_asset_service/app/catalog_cleanup_apply.py:148-191 | fails iff tenants differ and then changes nothing; else withdraws just this archive and logs it |
| CleanupApply.Session.RelinkOne | file_asset_service/app/catalog_cleanup_apply.py:196-246 | none of its checks can fail; exactly one mount is repaired and logged with its old file |
| CleanupApply.Session.Relink | file_asset_service/app/catalog_cleanup_apply.py:193-247 | exactly the missing references of the archive are repaired, one event each |
| CleanupApply.Session.Carry | file_asset_service/app/catalog_cleanup_apply.py:141-247 | one action succeeds iff it stays in one tenant, whatever earlier actions did |
| CleanupApply.Session.CarryAll | file_asset_service/app/catalog_cleanup_apply.py:141-257 | the loop fails iff some action crosses tenants, with the first such archive; else state, log and receipt are the specified ones |
| CleanupApply.Session.Apply | file_asset_service/app/catalog_cleanup_apply.py:75-257 | fails exactly with the stated verdict; on success the database is exactly the specified one; no other check can fail |
| CleanupApply.Session.ApplyAtomically | file_asset_service/app/catalog_cleanup_apply.py:277-286 | a refused report leaves no trace in database, events, outbox or audit |
| CleanupApply.EventsCounted | file_asset_service/app/catalog_cleanup_apply.py:169-246 | events number exactly withdrawals plus relinked references |
| CleanupApply.UntouchedSoFar | file_asset_service/app/catalog_cleanup_apply.py:141-208 | earlier actions change nothing that a later action checks or changes |
| PlainPlan.VerdictIs | file_asset_service/app/catalog_cleanup_apply.py:29-52 | each reason for refusing a report applies iff its condition holds and no earlier one does |
| PlainPlan.OutcomeIs | file_asset_service/app/catalog_cleanup_apply.py:141-247 | every row afterwards: archives that give way are withdrawn and not current, missing files of archives that stay are replaced by the one that can stand in, nothing else changes |
| PlainPlan.EventsAre | file_asset_service/app/catalog_cleanup_apply.py:156-246 | what each action logs: the kept archive and whether the withdrawn one was current, or for every reference its old file and linker, the new file and the evidence |
| PlainPlan.EventsInOrder | file_asset_service/app/catalog_cleanup_apply.py:141-247 | the log is the events of the actions one after another |
| PlainPlan.ReceiptIs | file_asset_service/app/catalog_cleanup_apply.py:186-257 | the receipt counts withdrawals and relinked references and lists archives and references |
| CleanupSafety.Survivors | file_asset_service/app/catalog_cleanup_apply.py:160-162 | afterwards active are exactly the archives that were active and not planned for withdrawal |
| CleanupSafety.SurvivorMounts | file_asset_service/app/catalog_cleanup_apply.py:215-216 | a survivor's valid mounts are unchanged, its missing ones resolved by their one candidate |
| CleanupSafety.NothingLost | file_asset_service/app/catalog_cleanup_apply.py:75-257 | each withdrawn archive names a linked, active, readable archive of its tenant; survivors miss no file; nothing else changes |
| CleanupSafety.KeptIsGood | file_asset_service/app/catalog_cleanup_report.py:192-208 | the kept archive of an applied plan stays active and can be read afterwards |
| CleanupSafety.LinksOnlyShrink | file_asset_service/app/catalog_cleanup_report.py:176-187 | applying a plan links no archives that were not linked |
| CleanupSafety.AfterFirst | file_asset_service/app/catalog_cleanup_apply.py:75-247 | after one application no active archive misses a file, and groups keep to one tenant |
| CleanupSafety.NothingMissingSettles | file_asset_service/app/catalog_cleanup_report.py:57-254 | with no file missing, applying a plan leaves an empty plan |
| CleanupSafety.AcceptedIfOneTenant | file_asset_service/app/catalog_cleanup_apply.py:85-154 | a supported, fresh, non-empty plan over one-tenant groups is accepted |
| CleanupRounds.TwoRoundsSettle | file_asset_service/app/catalog_cleanup_apply.py:75-257 | after at most two rounds of report and apply the next report is empty, in whatever order the rows are read each time |
| CleanupRounds.EmptyPlanExactly | file_asset_service/app/catalog_cleanup_report.py:187-249 | with no file missing, the plan is empty iff no linked pair has a readable member |
| CleanupRounds.SurvivorsStayLinked | file_asset_service/app/catalog_cleanup_report.py:176-187 | linked archives that both stay are still linked afterwards |
| CleanupRounds.SecondRoundExactly | file_asset_service/app/catalog_cleanup_report.py:195-208 | whatever the row order, a second round is needed iff two linked archives both stay and one has a missing file |
| CleanupRounds.TwoRoundsCanBeNeeded | file_asset_service/app/catalog_cleanup_report.py:195-238 | a store with two archives for which it is needed |
| TableGrid.NextFree | quota-unified/baseline.py:208-211 | the first free slot at or after a column |
| TableGrid.PlaceCell | quota-unified/baseline.py:213-223 | in place: own row overwritten, rows below filled only where empty, all clipped to the grid |
| TableGrid.ExpandRow | quota-unified/baseline.py:205-224 | in place: the row's cells at the specified start columns, stopping when the row is full |
| TableGrid.ParseTable | quota-unified/baseline.py:175-231 | in place: grid, width and start columns as specified, for any rows of cells |
| TableGrid.PlacePaints | quota-unified/baseline.py:213-223 | writing a box of a tiling fills exactly its own slots |
| TableGrid.ParseRecoversTiling | quota-unified/baseline.py:175-231 | parsing the listing of any tiling gives back the owner of every position and every left edge |
| TableGrid.ParseIsFaithful | quota-unified/baseline.py:202-231 | for any input: rectangular, start columns strictly rise, each shows its own text, processed rows never change |
| CellReach.EveryPosition | quota-unified/baseline.py:202-231 | for any rows of cells every position shows the text of the winning cell among those that reach it (the last of its own row, else the first read above), or nothing |
| CellReach.EveryStart | quota-unified/baseline.py:205-212 | for any rows of cells each placed cell starts at the first position behind its predecessor that no earlier cell reaches, and a cell is not placed only if there is none |
| CellReach.NoGrid | quota-unified/baseline.py:184-201 | no rows, or a first row that spans nothing, give no grid |
| CompositeTables.WriteMarkup | quota-unified/baseline.py:877-903 | the run-length loop writes the specified markup |
| CompositeTables.RunsAreMaximal | quota-unified/baseline.py:892-895 | neighbouring runs differ |
| CompositeTables.RoundTrip | quota-unified/baseline.py:880-884 | parsing the markup of any non-empty rectangular grid gives the same grid |
| CompositeTables.PieceIsSingle | quota-unified/baseline.py:982-984 | a piece of a composite table has exactly one quota row, its first |
| CompositeTables.PieceParses | quota-unified/baseline.py:982-989 | a piece, written out and parsed, is itself again, full width, one quota row |
| CompositeTables.PiecesConcatenate | quota-unified/baseline.py:978-984 | the pieces together are all rows from the first quota row on |
| CompositeTables.PiecesAreLeaves | quota-unified/baseline.py:980-993 | each recursive call goes straight to the single-table extraction |
| CompositeTables.CompositeIsFlat | quota-unified/baseline.py:971-993 | recursion depth at most one; nothing from the first quota row on is lost |
| CompositeTables.ExtractTable | quota-unified/baseline.py:971-997 | small, single and composite tables as specified; terminates because pieces are single |
| CompositeTables.ExtractEach | quota-unified/baseline.py:980-993 | rows concatenated in order, the first issue kept |
| TableCuts.ExtractIs | quota-unified/baseline.py:970-997 | small tables give nothing, tables with at most one quota row what is extracted from them, others the rows of their pieces in order and the first issue, each piece being the rows from one quota row to the next |
| CrossPageJoin.ReadContinuation | quota-unified/baseline.py:1034-1073 | every priced item yields its row for every project, in table order; each project's delta is the sum of its rows' verification column |
| CrossPageJoin.ReadItem | quota-unified/baseline.py:1036-1068 | one item: a row per project, booked unless it is a proportion |
| CrossPageJoin.EachGetsItsRows | quota-unified/baseline.py:2029-2033 | taken apart by project, a continuation gives each project one row per priced item, in order |
| PrintedRows.ContinuationPrints | quota-unified/baseline.py:1034-1073 | what a project gets out of a continuation, row by row with kind, name and value, and the sum its total is raised by |
| CrossPageJoin.InsertIndex | quota-unified/baseline.py:2045-2050 | the nearest management-fee row upwards, with none between, else the blank row |
| CrossPageJoin.Book.constructor | quota-unified/baseline.py:1923-1976 | starts with no rows, no index, no seen project |
| CrossPageJoin.Book.AppendHeadings | quota-unified/baseline.py:1988-2003 | section rows are appended, the index is untouched |
| CrossPageJoin.Book.AppendMain | quota-unified/baseline.py:2068-2080 | rows appended, each blank recorded for its nearest head, heads marked as seen |
| CrossPageJoin.Book.Splice | quota-unified/baseline.py:2034-2064 | in place: rows inserted with cleared ids, indices at or past the spot shifted, nearest head's total raised |
| CrossPageJoin.Book.Join | quota-unified/baseline.py:2026-2064 | the projects of a continuation spliced from last to first |
| CrossPageJoin.JoinAllKeepsAnchored | quota-unified/baseline.py:2034-2064 | wherever the scan ends, every index still points at a blank closing its own project |
| MixedFiles.IndexIsRight | quota-unified/baseline.py:1978-2082 | after any pages, whatever blocks they mix: the index has exactly the projects seen, each at a blank row that closes its own rows, so no continuation is appended at the end |
| MixedFiles.NoRowIsLost | quota-unified/baseline.py:1978-2084 | in the end the list holds every heading, emitted row and continuation row as often as it was read, wherever it landed |
| MixedFiles.SoundPartsExactly | quota-unified/baseline.py:989-993 | the sound quota tables of a main table are all emitted iff no flawed one stands beside a sound one |
| MixedFiles.FlawHidesNeighbour | quota-unified/baseline.py:2065-2066 | a composite table of which the sound part leaves no row |
| PageKinds.PageIs | quota-unified/baseline.py:1005-1074 | what a page comes to: headings, and a continuation, main tables or nothing, as the projects seen, the base price and flaws decide |
| PageKinds.MarksAre | quota-unified/baseline.py:2046-2063 | the marks by which heads, blanks and management-fee rows are told |
| JoinedBlocks.LandsOwnExactly | quota-unified/baseline.py:2045-2050 | the scan stays in its block iff the block has a management row or no earlier block has one |
| JoinedBlocks.StrayJoinLosesTotal | quota-unified/baseline.py:2045-2064 | otherwise the rows land above their block before a management row, all from there on stays as it was, own total included, and at most an earlier head of the project is raised |
| JoinedBlocks.OwnTotalRaisedExactly | quota-unified/baseline.py:2045-2064 | a join with an amount to book raises its own project's total iff the scan stays in its block |
| JoinedFiles.FileRefinesBlocks | quota-unified/baseline.py:1978-2084 | the final list is the blocks end to end, and every head's total is its emitted total plus the sum over its added rows |
| JoinedFiles.MainRowsStay | quota-unified/baseline.py:2051-2057 | continuations drop, move or change no main row |
| JoinedFiles.UniformFileLands | quota-unified/baseline.py:2045-2050 | if all blocks of a file have a management row, or none has, every continuation lands in its own block |
| JoinedFiles.BlocksHoldWhatIsOwed | quota-unified/baseline.py:2029-2053 | a block's added rows are its project's continuation rows since its last emission, in page order, none lost or doubled |
| JoinedFiles.AnchoredAtLatest | quota-unified/baseline.py:2068-2076 | the block a project is known by is the one it was last emitted as |
| JoinedFiles.BlockInTheEnd | quota-unified/baseline.py:1978-2084 | in the end it has those rows, the owed continuation rows behind them, and a total raised by their sum |
| JoinedFiles.StrayTables | quota-unified/baseline.py:2045-2064 | two emitted blocks and a continuation whose row ends up in the wrong block |
| QuotaFile.EmitAll | quota-unified/baseline.py:980-993 | the quota tables of a composite table as blocks, one after another |
| QuotaFile.WritePage | quota-unified/baseline.py:2020-2080 | one page, in place: continuation or main table, as the projects seen so far decide |
| QuotaFile.ProcessFile | quota-unified/baseline.py:1975-2084 | the file loop, in place, gives the specified list, index and seen projects |
| QuotaFile.SeenAfterPage | quota-unified/baseline.py:2077-2080 | continuations leave the seen projects as they are, main tables add their own |
| QuotaFile.FileInTheEnd | quota-unified/baseline.py:954-2084 | for whole files with or without management rows: each seen project ends with one block, holding its table's rows, its continuation rows in page order, and the counted total plus their sum |
| QuotaFile.StrayFile | quota-unified/baseline.py:2045-2064 | a three-page file, one management row: the continuation of the second project lands in the first |
| Materials.AddBasis | quota-unified/baseline.py:1297-1316 | the loop adds up exactly the materials that other materials are a percentage of |
| FeeVerification.EmitMain | quota-unified/baseline.py:1258-1262 | unpriced materials are listed and never counted |
| FeeVerification.EmitDetails | quota-unified/baseline.py:1319-1352 | priced rows carry quantity times price, a sum or a percentage of the basis, rounded; counted unless proportions, appendices or fee-less strategy |
| FeeVerification.EmitSummaries | quota-unified/baseline.py:1374-1406 | summary rows are listed and all counted |
| FeeVerification.EmitInner | quota-unified/baseline.py:1238-1406 | the running total is at the end the sum over exactly the counted rows |
| FeeVerification.EmitProject | quota-unified/baseline.py:1239-1418 | the total is filled into the project's own head, found from the end |
| FeeVerification.EmitTable | quota-unified/baseline.py:1236-1420 | the projects' rows one after another |
| FeeVerification.TotalByRule | quota-unified/baseline.py:1241-1413 | the total, fee by fee, under each strategy, however the materials are sorted |
| PrintedRows.ProjectPrints | quota-unified/baseline.py:1238-1418 | all the rows of a project, from the cells alone: which fee rows, which items in which order, every kind, name and value by cases (proportion, percentage, sum, quantity times price), and the total of the head |
| FeeVerification.OrderDoesNotMatter | quota-unified/baseline.py:1285-1294 | sorting the materials changes neither basis nor counted sum |
| FeeVerification.EmitsFreshBlocks | quota-unified/baseline.py:1239-1418 | a project's rows form a block as the join expects it, its base the counted total, with a management row iff the table has one |
| FeeVerification.TableEmitsFreshBlocks | quota-unified/baseline.py:1236-1420 | a table's rows are such blocks, one per project, in order |
| SectionNumbers.ExtractSections | quota-unified/baseline.py:1698-1815 | the extractor loop gives the specified codes and final state |
| SectionNumbers.RebuildState | quota-unified/baseline.py:1988-2015 | the caller's loop follows the headings that its filters let through, error case included, and remembers the codes it has met |
| SectionNumbers.StepIsFollowed | quota-unified/baseline.py:2005-2015 | after one heading the caller's state equals the extractor's |
| SectionNumbers.StateSurvivesPrinting | quota-unified/baseline.py:1983-2015 | folding over all printed codes gives exactly the extractor's final state |
| SectionNumbers.CuttingChangesNothing | quota-unified/baseline.py:1978-2015 | cutting a token list whose flags are given changes neither codes nor state |
| SectionNumbers.CodesNest | quota-unified/baseline.py:1712-1815 | subsection implies section implies chapter; every longer code extends the latest code one shorter |
| HeadingCodes.HeadingIs | quota-unified/baseline.py:1712-1815 | which headings count, the codes each prints and the layers it leaves |
| HeadingCodes.FollowIs | quota-unified/baseline.py:2005-2015 | what the caller makes of a code by its parts, and exactly when it fails |
| HeadingCodes.RowsAre | quota-unified/baseline.py:1988-2003 | which headings become rows under the two filters |
| TaskRules.DelaysRise | file_asset_service/app/cost_info_worker.py:434-438 | retry delays never shrink, start at 120 s and stop at 14400 s |
| TaskOutcomes.LeaseEnabledIs | file_asset_service/app/cost_info_worker.py:106-148 | which tasks can be leased: pending, or running under a lease that has run out, and due |
| TaskOutcomes.LeaseLasts | file_asset_service/app/cost_info_worker.py:163-189 | leasing, field by field: the lease lasts the seconds asked for, and a minute at least; nothing else changes |
| TaskOutcomes.LeaseShutsOut | file_asset_service/app/cost_info_worker.py:106-163 | while a row runs under a lease nobody leases it before the minute and the seconds are over |
| TaskOutcomes.CompletionIs | file_asset_service/app/cost_info_worker.py:303-334 | a completion, field by field; no other row changes |
| TaskOutcomes.FailureIs | file_asset_service/app/cost_info_worker.py:424-458 | a failure, field by field: attempt, waiting time of 120 seconds doubled up to 14400, or dead after the attempts allowed; no other row changes |
| TaskOutcomes.ScheduleIs | file_asset_service/app/cost_info_scheduler.py:204-264 | a source gets a fresh task iff no incremental one of it is pending or running |
| TaskProtocol.RunsKeepInv | file_asset_service/app/cost_info_worker.py:96-189 | runs whose reports pass the check of the lease keep: unexpired leases match their task, running tasks have a holder, attempts within bounds, one live task per source |
| TaskProtocol.ProtocolIsSafe | file_asset_service/app/cost_info_worker.py:96-189 | over all such runs: at most one unexpired lease per task, at most one live incremental task per source, done and failed rows final with all they report |
| TaskProtocol.SafeExactly | file_asset_service/app/cost_info_worker.py:303-458 | among all runs of the code, those that respect finished rows and unexpired leases are exactly those whose reports pass that check |
| TaskProtocol.MoveRespectsExactly | file_asset_service/app/cost_info_worker.py:303-458 | one move respects them iff it passes the check: the row is live and not under another's lease, or says already what would be written |
| TaskProtocol.AttemptsCountExactly | file_asset_service/app/cost_info_worker.py:424 | over all runs of the code: the attempts on the rows are at every moment the failures reported, iff no failure is reported on a row with more attempts than were read at leasing |
| TaskProtocol.RetriesBounded | file_asset_service/app/cost_info_worker.py:424-458 | over such runs, late reports or not: back to pending by failure at most max_attempts - 1 times, dead-lettered after exactly max_attempts failures |
| TaskProtocol.PunctualRunsAreAllowed | file_asset_service/app/cost_info_worker.py:303-458 | runs in which no worker reports after its lease pass both checks |
| TaskProtocol.OneRetryTooMany | file_asset_service/app/cost_info_worker.py:424-443 | a run of the code that passes the first check and sends a task of three attempts back to pending three times |
| TaskProtocol.LateFailureReopens | file_asset_service/app/cost_info_worker.py:417-443 | a run of the code in which a late failure report turns a done task pending |
| WorkerDrain.QueryOrder | file_asset_service/app/cost_info_worker.py:118-135 | the listing holds every task once, by rank |
| WorkerDrain.ReadyIs | file_asset_service/app/cost_info_worker.py:106-148 | which tasks a pass may take, field by field |
| WorkerDrain.Queue.LeasePending | file_asset_service/app/cost_info_worker.py:151-189 | the first ready tasks in query order run under a new lease of a minute at least; no other row changes |
| WorkerDrain.Queue.Select | file_asset_service/app/cost_info_worker.py:96-148 | the first ready tasks that pass the filters, in query order, as many as the limit allows, each once; none left out ranks before one taken |
| WorkerDrain.Queue.LeaseSelected | file_asset_service/app/cost_info_worker.py:163-189 | exactly the selected tasks are running under the new lease |
| WorkerDrain.Queue.RunOne | file_asset_service/app/cost_info_worker.py:517-591 | one task ends done, pending again or failed, and no other changes |
| WorkerDrain.Queue.RunLeased | file_asset_service/app/cost_info_worker.py:517-595 | every leased task ends as its run says and is counted under its own heading; sources are suspended exactly for dead tasks |
| WorkerDrain.Queue.RunWorker | file_asset_service/app/cost_info_worker.py:468-595 | leased = done + retry + dead letter; no leased task is ready again at the same time |
| WorkerDrain.Queue.Drain | file_asset_service/app/crawler_loop.py:57-74 | no task leased twice; at most ceil(ready / limit) + 1 passes; nothing ready remains when the cap allows |
| IssueRun.RunTask | file_asset_service/app/cost_info_worker.py:225-265 | issues looked at = ingested + duplicate + failed + skipped, and the state is the specified one |
| IssueRun.FullScanArchives | file_asset_service/app/cost_info_worker.py:225-266 | a full run archives exactly the issues that can be ingested, besides the old ones |
| IssueRun.EarlyStopExactly | file_asset_service/app/cost_info_worker.py:233-245 | stopping early archives what the full scan does iff every issue after the stop is archived or cannot be ingested |
| IssueRun.EarlyStopIsSafe | file_asset_service/app/cost_info_worker.py:237-244 | with distinct keys, three known in a row implying all later known, stopping early archives the same set |
| IssueRun.LogIsFresh | file_asset_service/app/cost_info_worker.py:233-255 | nothing is archived twice |
| IssueKinds.RunIs | file_asset_service/app/cost_info_worker.py:225-265 | every issue looked at goes to its own count, ingested ones are archived once and in order, and the run stops exactly behind the first three duplicates in a row |
| IssueRun.RerunAfterCrash | file_asset_service/app/cost_info_worker.py:225-266 | a rerun after a crash anywhere archives no key twice, and without early stopping it reaches the undisturbed result |
| IssueRun.StopsAtFirstTriple | file_asset_service/app/cost_info_worker.py:233-245 | with distinct keys, a run with early stopping is a full scan up to the first three known issues in a row |
| IssueRun.RerunExactly | file_asset_service/app/cost_info_worker.py:225-266 | with early stopping, a rerun catches up iff every issue that only the undisturbed run would reach is archived by then or cannot be ingested |
| IssueRun.CrashLosesIssue | file_asset_service/app/cost_info_worker.py:233-245 | four new issues, a crash after three, and the fourth is never archived by the rerun |
| ScanCalendar.ScanTimesExact | file_asset_service/app/cost_info_scheduler.py:59-75 | exactly the listed times that exist, or the default if there is none |
| ScanCalendar.ScanDaysExact | file_asset_service/app/cost_info_scheduler.py:78-84 | exactly the listed days within 1 to 31, or the default if there is none |
| ScanCalendar.TryDay | file_asset_service/app/cost_info_scheduler.py:105-111 | the earliest later slot over the days tried so far |
| ScanCalendar.TryMonth | file_asset_service/app/cost_info_scheduler.py:104-113 | the earliest slot of the month that is later, if there is one |
| ScanCalendar.NextMonthly | file_asset_service/app/cost_info_scheduler.py:100-118 | always finds the first slot strictly after, within three months; the final error is unreachable |
| ScanCalendar.NextScanAt | file_asset_service/app/cost_info_scheduler.py:87-126 | every frequency gives a real date strictly after, as specified |
| CalendarDays.NextDayIs | file_asset_service/app/cost_info_scheduler.py:120-126 | the next day has the next number in a count of days with leap years |
| CalendarDays.EarlierIs | file_asset_service/app/cost_info_scheduler.py:105-113 | moments are ordered as day numbers and times of day |
| CalendarDays.SlotIs | file_asset_service/app/cost_info_scheduler.py:59-111 | what a configured slot is: an existing date on a named day, or one of the usual six, at a named time, or eight or two o'clock |
| CalendarDays.NextScanIs | file_asset_service/app/cost_info_scheduler.py:87-126 | the next scan is seven days later, at the start of the next day, or at the first slot after, in day numbers |
| Scheduler.Table.CreateIfAbsent | file_asset_service/app/cost_info_scheduler.py:227-264 | creates iff the source has no live task, and then sets its next scan; else changes nothing |
| Scheduler.Table.RunScheduler | file_asset_service/app/cost_info_scheduler.py:267-334 | exactly the considered, due (or forced), idle sources get a task, none in a dry round; every count of the report is the number of sources it stands for |
| DueSources.RoundGives | file_asset_service/app/cost_info_scheduler.py:152-202 | a listed source gets a task iff it is active, enabled, with an adapter and no live task, and its next scan has come, or it has none stored and no task, or the latest of its newest twenty is long enough ago; or the round is forced; never in a dry round |
| DueSources.RoundLeaves | file_asset_service/app/cost_info_scheduler.py:267-331 | sources that are not listed are left alone |
| DueSources.DueAre | file_asset_service/app/cost_info_scheduler.py:299-314 | the due count is the number of sources whose time it is |
| DueSources.CountsAre | file_asset_service/app/cost_info_scheduler.py:279-311 | the other counts are the numbers of active, disabled and adapterless sources |
| Scheduler.HistoryIsWatch | file_asset_service/app/cost_info_scheduler.py:299-331 | any sequence of unforced rounds, dry ones included, with tasks ending in between, is for every source a run of its watch |
| Scheduler.MonthlyRate | file_asset_service/app/cost_info_scheduler.py:100-113 | over any such rounds, in any window, a monthly source gets at most slots + 1 tasks |
| Scheduler.DailyRate | file_asset_service/app/cost_info_scheduler.py:123-126 | over any such rounds a daily source gets at most one task per local calendar day |
| Scheduler.WeeklyRate | file_asset_service/app/cost_info_scheduler.py:120-121 | over any such rounds a weekly source's tasks are seven days apart |
| Scheduler.CreationsAreSpaced | file_asset_service/app/cost_info_scheduler.py:152-161 | over all rounds, each creation is at or after the next scan set by the one before |
| NoticeFilter.PreviewParser.HandleStartTag | file_asset_service/app/file_preview.py:362-387 | the start-tag transition, in place |
| NoticeFilter.PreviewParser.HandleEndTag | file_asset_service/app/file_preview.py:389-403 | the end-tag transition, in place |
| NoticeFilter.PreviewParser.HandleData | file_asset_service/app/file_preview.py:405-407 | the text transition, in place |
| NoticeFilter.PreviewParser.Feed | file_asset_service/app/file_preview.py:300-304 | a page runs through the transitions in order |
| NoticeFilter.NodeIsKept | file_asset_service/app/file_preview.py:362-407 | inside the match, a subtree's events write exactly its recursive filtering and restore the counters |
| NoticeFilter.StreamingOnAnyPage | file_asset_service/app/file_preview.py:362-407 | what is written for any well-nested page, void first matches included |
| NoticeFilter.StreamingIsRecursive | file_asset_service/app/file_preview.py:362-407 | the output is the recursive filtering of the first match iff the match is not void, is self-closed, or has silent neighbours |
| NoticeFilter.SanitizedIsFiltered | file_asset_service/app/file_preview.py:300-304 | a fragment wrapped in a body comes out as its recursive filtering |
| PreviewTags.KeptIs | file_asset_service/app/file_preview.py:362-403 | what is kept of an element, tag by tag: nothing, its tag, its content, or both |
| NoticeFilter.OnlyAllowedTags | file_asset_service/app/file_preview.py:362-403 | whatever the events, no tag is written that may not be shown |
| NoticeFilter.PlaceIsFirst | file_asset_service/app/file_preview.py:409-415 | the place found is that of the first matching element in document order |
| NoticeFilter.KeepBalances | file_asset_service/app/file_preview.py:382-396 | whatever is kept of a node opens and closes in balance |
| NoticeFilter.CutOutBalances | file_asset_service/app/file_preview.py:389-403 | the output is balanced up to the match's own end tag |
| NoticeFilter.VoidMatchLeaks | file_asset_service/app/file_preview.py:366-370 | a concrete page on which text beside a void match is written |
| MergedCells.CollectInside | file_asset_service/app/file_preview.py:660-663 | the covered positions of a clipped range |
| MergedCells.XlsxMergeSpans | file_asset_service/app/file_preview.py:648-664 | spans and covered cells exactly as laid out from the clipped ranges |
| MergedCells.XlrdMergeSpans | file_asset_service/app/file_preview.py:685-705 | the zero-based half-open form lays out the same |
| MergedCells.LastContent | file_asset_service/app/file_preview.py:931-935 | the last column with content |
| MergedCells.RenderedColumns | file_asset_service/app/file_preview.py:930-941 | the least width, at least 1, that holds all content and all content-bearing ranges; 0 for an empty window |
| MergedCells.RenderRow | file_asset_service/app/file_preview.py:621-645 | the row's cells left to right, covered ones skipped |
| MergedCells.RenderTable | file_asset_service/app/file_preview.py:621-645 | the rows of the window are the listing of the rendered boxes |
| MergedCells.SkippedExact | file_asset_service/app/file_preview.py:658-663 | a cell is skipped iff a range reaches over it without starting there |
| SheetFaces.LeftOutAre | file_asset_service/app/file_preview.py:648-664 | a cell is left out iff it lies in a range that starts in another cell |
| SheetFaces.SizesAre | file_asset_service/app/file_preview.py:648-664 | a corner reaches as far as its range does inside the window, any other cell is by itself |
| SheetFaces.ZeroRangeIs | file_asset_service/app/file_preview.py:685-705 | the zero-based half-open ranges hold the same cells |
| SheetFaces.RowIs | file_asset_service/app/file_preview.py:621-645 | a rendered row has one cell for each column not left out, in order, with its text and size |
| MergedCells.VisibleRangesFit | file_asset_service/app/file_preview.py:936-938 | ranges whose corner has content fit the rendered width, so all fit iff no blank-cornered one sticks out |
| MergedCells.RenderingTilesExactly | file_asset_service/app/file_preview.py:621-664 | for disjoint ranges: cells tile the rectangle, without gap, overlap or overhang, iff every range starting in it fits |
| MergedCells.RenderedTableReadsBack | file_asset_service/app/file_preview.py:621-664 | expanding the rendered table shows at each position the content of the range over it |
| MergedCells.PreviewTilesExactly | file_asset_service/app/file_preview.py:540-664 | at the width that is computed, the cells tile the rectangle iff no blank-cornered range sticks out |
| MergedCells.PreviewSheet | file_asset_service/app/file_preview.py:552-581 | layout, width and rows together; read back, every position shows the content of the range over it |
| MergedCells.EmptyHeadingSticksOut | file_asset_service/app/file_preview.py:621-664 | a two-column sheet whose empty merged heading sticks out of a one-column rendering |

## Left out

- IdentityKeys.UrlKeyDeterminesLabel: takes any text for a title, and any text with a scheme in front (and slashes behind a web scheme) for a URL; normalisation returns only some of these, and recent Python versions write a URL with a relative path without the slashes, which is outside this form.
- CleanupReport.BuildReport: does not produce the summary counts, group numbers, focus rows or the rendered report; evidence is held as sets, which the report lists in sorted order; URL, title and period normalisation happen before the stored values.
- CleanupApply.Session.Apply: does not model `updated_at`, `occurred_at`, row locks of other transactions or the report's digest check in the command-line entry point; the database is a value and commit is all-or-nothing.
- TableGrid.ParseTable: does not model HTML parsing, whitespace folding or negative and non-numeric span attributes.
- CompositeTables.WriteMarkup: does not escape or strip texts; they are taken as stripped and free of markup.
- CompositeTables.ExtractTable: does not model the extraction of a single table's cells (project names, units, price columns); it is a parameter.
- QuotaFile.ProcessFile: does not read project numbers, materials, cost rows, base-price rows and flaws from a table's cells; they are what a page consists of.
- FeeVerification.EmitDetails: does not fix how an amount is rounded to cents; any rounding may be given.
- SectionNumbers.ExtractSections: does not model the regular expressions and line look-ahead, which become flags on tokens, nor strict mode or the other numbering profiles.
- SectionNumbers.CuttingChangesNothing: the look-ahead flags of a token are given; the repository computes them again inside each stretch.
- SectionNumbers.StateSurvivesPrinting: is about callers that filter no headings; with a filter on, a heading left out is not followed.
- TaskProtocol.ProtocolIsSafe: the scheduler's check and insert are one atomic step; error codes, error texts and heartbeats are not part of a row.
- WorkerDrain.Queue.Select: the filters by source, site, adapter and batch are given as the set of tasks that pass; dry runs, campaigns, heartbeats and crawl-state counters are not modelled, and whether a source is suspended after repeated failures is a parameter.
- IssueRun.RunTask: does not model campaign inventories; whether an issue can be ingested is a parameter, and an ingest either archives or leaves nothing.
- ScanCalendar.NextScanAt: does not model zones with daylight saving, nor years past 9999.
- Scheduler.Table.RunScheduler: does not model unknown frequencies or the lookup of adapters, and takes source identifiers as distinct.
- NoticeFilter.PreviewParser.Feed: does not model tokenisation of HTML, attribute rendering, link checks, escaping or the final test for visible text.
- MergedCells.RenderRow: does not model styles, number formats, the row-number cell or attribute text; previews that start past the first row are not covered, since their ranges are clipped page by page.
- City and trading adapters, migrations, the coverage contract, archive services, dashboards and scripts: they would add only members whose properties follow from one branch.
