# Verification of the gate scripts

A green build of this repository rests on a handful of Python gates. Six of them hold real
algorithms, and this project models those six in Dafny and proves what they promise, for every
input, every run and, where processes share a directory, every interleaving.

| script | files here |
|---|---|
| `scripts/check-doc-claims.py`, the overclaim ban | `Reflow`, `ReflowLaws`, `Paragraphs`, `ParagraphLaws`, `ParagraphLines`, `MarkdownBlocks`, `BlockForms`, `MarkdownLaws`, `LineLayout`, `MarkdownLines`, `SentenceOrigins`, `DocumentWrapping`, `Patterns`, `BannedClaims`, `ClaimComposition`, `OverclaimBan`, `SweptSet`, `BanCoverage` |
| `scripts/check-banned-deps.py`, the dependency ledger | `DependencyGraph`, `LedgerFacts`, `FactSources`, `Ledger`, `LedgerPaths`, `LedgerUpdate`, `LedgerReasons`, `Decimal`, `TomlText`, `LedgerText`, `LedgerRoundTrip` |
| `scripts/benchmark-acquire.py`, the verified cache | `CacheNames`, `ArtifactCache`, `CacheProtocol`, `CacheSafety`, `CacheRace`, `QuarantineNames`, `CacheRefinement`, `CacheVerdicts` |
| `scripts/check-gate-parity.py`, two lists of gates | `MakeGates` |
| `scripts/check-brand-casing.py`, comments and code spans | `SourcePosition`, `RustLexer`, `RustTokens`, `CodeSpans`, `BrandScan` |
| `scripts/check-entailment-surface.py`, parameter lists | `ParamSplitter` |

`Text` holds Python's white space, line splitting and stripping; `Ordering` its order of strings;
`Wrappers` a value that may be missing.

Where a script loops over indices or changes an object, the model does too: a method or a class,
proved against a specification function or predicate. The lemmas then say what that specification
means. Where it composes expressions, the model is a function.

## Main results

* **Wrapping cannot hide a claim.** Documents that differ only in where the lines of their paragraphs
  break have the same sentences in the same order (`DocumentWrapping.SentencesIgnoreWrapping`), and
  the sweep finds the same claims in them and exempts the same ones (`SweptSet.HitsIgnoreWrapping`,
  `SweptSet.SweepIgnoresWrapping`). A paragraph goes on for as long as its lines are prose; so a
  break before text that then opens a list item, a heading or a table row is not such a difference:
  it ends the paragraph, as the script means it to.
* **What shares a block is told by characters.** A line is read in the block of the line before it
  exactly when both are running text outside fences and it begins with no heading, list mark, list
  number or bar (`BlockForms.GoesOnExactly`, `BlockForms.BlocksOpenOnce`).
* **Nothing gets lost between the lines.** The sentences of a document hold its characters in
  order, fence delimiters and table bars aside (`MarkdownLaws.SentencesConserve`). Each begins, on
  the line it is reported on, at the very character that comes after what the sentences before it
  hold (`MarkdownLines.SentencesLieOnTheirLines`), which no other line has
  (`MarkdownLines.OriginIsUnique`). The reach arm, which counts newlines, gives that character the
  same line exactly when only newlines break the lines before it (`MarkdownLines.ArmsAgree`). And each
  sentence occurs character for character in the reflowed text
  (`SentenceOrigins.SentenceOccurs`).
* **No unit escapes the ban.** A marked claim matches exactly where its halves match on either side of
  its marker (`ClaimComposition.PatternExact`), so every match holds the marker, whatever the halves
  are (`BannedClaims.MatchHoldsMarker`); the probe of the raw text answers
  as the reflowed text would (`BannedClaims.ProbeExact`); and a unit that makes a marked claim is
  swept or reported, never both (`BanCoverage.NoUnitEscapes`). The names of units must be distinct:
  `BanCoverage.EscapesIffNameIsShared` shows that this is exactly what it takes.
* **The cache name is safe in every interleaving.** Any number of processes, killed anywhere, with
  power lost anywhere, against any network: an artifact's name holds what it held at the start,
  nothing, or bytes that match every pin (`CacheSafety.VerifiedOrAbsent`).
* **The interleaved processes do what one process is specified to do.** Left to itself, a process
  leaves the names and bytes that `ArtifactCache` specifies, whatever the network answers
  (`CacheRefinement.AloneIsEnsureCached`). Among others it still gives what it downloads the name it
  deserves, the artifact's or that of its own digest (`CacheVerdicts.VerdictCarriedOut`).
* **Quarantine names are safe in one process only.** In a single process rejected bytes end under
  their own digest and stay there (`ArtifactCache.EvidenceKeptForever`). With several processes a
  *good* file can end under the digest of a bad one; `CacheRace.QuarantineCanBeMisnamed` builds the
  run. `QuarantineNames.QuarantineNamedExactly` says when, in any run: a file condemned for its
  SHA-256 is rightly named exactly when no process installed the artifact between the hashing and
  the move, or the pinned digest happens to begin as the bad one. One condemned for its MD5 always
  is (`QuarantineNames.Md5QuarantineNamedRight`).
* **The exclusive closure is exact.** It counts the names every path to which uses a workspace
  member's own edge to the package (`DependencyGraph.LostExact`), and merging lockfiles does not
  depend on their order (`LedgerFacts.MergeOrderIrrelevant`).
* **A ledger without failures tells the truth.** Each reason to refuse a row is given exactly when what
  it says is so (`LedgerReasons.ReasonsExactly`). In a ledger without any, each row no workspace member depends on has a real
  path from its recorded holder and from the package its category names
  (`LedgerPaths.SoundRowsAreHeld`). The path starts at *some* package of that name, perhaps not the
  version depended on: `LedgerPaths.HolderMayBeAnotherVersion` is such a graph. All that a name holds
  is held by the very packages depended on exactly when its other versions lead to no further name
  (`LedgerPaths.HoldersDirectExactly`). It is enough that they are all reached themselves, which is
  when the same packages are reached with them and without (`LedgerPaths.DirectVersionsHoldAll`).
* **The ledger that is written is the ledger that is read.** The rendered rows read back as they were
  exactly when newline and tab are the only control characters in their strings and no value is of a
  type that is written as a string (`LedgerRoundTrip.SectionRoundTripsExactly`); and a second update
  leaves the whole text as it is, character for character, exactly when the strings are so, or else
  cannot read it (`LedgerRoundTrip.TextUpdateIsIdempotent`). What a person wrote above the rows stays
  (`LedgerRoundTrip.AuthoredLinesKept`).
* **The gates agree exactly when nothing is reported** (`MakeGates.Divergence`), over a recursion
  that shares one `seen` set between sibling calls (`MakeGates.InvocationsWithRecursion`).
* **Scanning inverts printing**, for Rust sources (`RustTokens.ScanInvertsPrint`) and for parameter
  lists (`ParamSplitter.SplitInvertsJoin`); code spans are those of section 6.1 of CommonMark 0.31.2,
  which has one reading (`CodeSpans.RunRuleDetermines`).

## Model

| member | source | states |
|---|---|---|
| `SourcePosition.PositionExact` | scripts/check-brand-casing.py:228-233 | the line is one more than the newlines before the offset, and the column reaches back to the last of them or to the start |
| `SourcePosition.RebaseIsAbsolute` | scripts/check-brand-casing.py:429-437 | a position computed inside a comment and shifted by the comment's own is the position of the absolute offset |
| `SourcePosition.LaterIsAfter` | scripts/check-brand-casing.py:437 | positions order as offsets do |
| `RustLexer.RustComments` | scripts/check-brand-casing.py:236-345 | the index-driven scan returns exactly the comments of the scanning specification, each with its text and true position |
| `RustLexer.ReadFrom` | scripts/check-brand-casing.py:249-343 | one turn of the scanning loop, in every branch, moves the index and records a comment as the specification does |
| `RustLexer.SkipBlock` | scripts/check-brand-casing.py:261-276 | a nested block comment ends where its depth returns to zero, or at the end of the text |
| `RustLexer.SkipQuoted` | scripts/check-brand-casing.py:278-289 | an escape skips two characters, so a literal cut short may end one past the text |
| `RustLexer.SkipRaw` | scripts/check-brand-casing.py:313-341 | a raw string ends at the first quote followed by its number of hashes |
| `RustLexer.SkipTick` | scripts/check-brand-casing.py:291-311 | a tick opens a lifetime or a character literal, and is skipped to its own end |
| `RustLexer.SpansSound` | scripts/check-brand-casing.py:239-242 | comments are disjoint, in order and inside the text, and each begins with its own opening |
| `RustTokens.NestScanned` | scripts/check-brand-casing.py:261-276 | a block comment nested to any depth is scanned to its own closing |
| `RustTokens.CodeScanned` | scripts/check-brand-casing.py:343 | plain code is stepped over a character at a time and yields nothing |
| `RustTokens.TokenStep` | scripts/check-brand-casing.py:249-341 | every other token is scanned whole, and reported exactly when it is a comment |
| `RustTokens.ScanInvertsPrint` | scripts/check-brand-casing.py:236-345 | for any source printed from tokens, the scan finds exactly the comment tokens, in order, each at its true place |
| `CodeSpans.FindInlineCodeSpans` | scripts/check-brand-casing.py:348-382 | the spans obey the run rule: disjoint, increasing, each between maximal runs of equal length with none of that length between, and no run left that could open one |
| `CodeSpans.RunRuleDetermines` | scripts/check-brand-casing.py:348-360 | a line has only one list of spans that obeys the rule |
| `BrandScan.NoOverlap` | scripts/check-brand-casing.py:428-430 | two occurrences of the brand never overlap, so leftmost search misses none |
| `BrandScan.BareMentions` | scripts/check-brand-casing.py:398-414 | exactly the occurrences that no identifier, path or package name runs into |
| `BrandScan.BareByCharacters` | scripts/check-brand-casing.py:398-414 | a mention is bare exactly when neither an ASCII letter or digit nor one of six signs stands on either side of the word |
| `BrandScan.CommentHits` | scripts/check-brand-casing.py:427-437 | the hits of one comment, at absolute offsets and positions |
| `BrandScan.ScanRustText` | scripts/check-brand-casing.py:422-438 | every bare mention in a comment is reported at its own line and column, nothing else is, and the hits come out sorted |
| `BrandScan.LineHits` | scripts/check-brand-casing.py:458-467 | the bare mentions of a line outside its code spans, in order |
| `BrandScan.ScanLine` | scripts/check-brand-casing.py:451-457 | a fence line toggles, and a line inside a fence yields nothing |
| `BrandScan.ScanMarkdownText` | scripts/check-brand-casing.py:446-468 | the hits are the places of each line's reportable mentions, line by line and column by column |
| `BrandScan.ReportedExactly` | scripts/check-brand-casing.py:446-468 | a place is reported exactly when its line, outside fences, has a bare mention there outside code spans; the places come out sorted |
| `ParamSplitter.ParamsBetweenParens` | scripts/check-entailment-surface.py:317-345 | the bracket-stack loop returns what the splitting specification says, errors included |
| `ParamSplitter.ReadInvertsText` | scripts/check-entailment-surface.py:324-345 | well-bracketed text is read back as it was written, over four bracket kinds and any depth |
| `ParamSplitter.RunNested` | scripts/check-entailment-surface.py:328-337 | inside a nested bracket the loop only copies, commas included |
| `ParamSplitter.RunTop` | scripts/check-entailment-surface.py:328-345 | at the top level it cuts at commas and returns at the unmatched parenthesis |
| `ParamSplitter.SplitExact` | scripts/check-entailment-surface.py:317-345 | splitting succeeds exactly where a closed parameter list stands, and returns its trimmed, nonblank chunks |
| `ParamSplitter.SplitInvertsJoin` | scripts/check-entailment-surface.py:317-345 | chunks joined by `, ` between parentheses are returned as they were, whatever follows |
| `ParamSplitter.FourPairsHide` | scripts/check-entailment-surface.py:314-345 | a comma inside parentheses, square brackets, braces or angle brackets does not cut |
| `ParamSplitter.OthersDoNotHide` | scripts/check-entailment-surface.py:314-345 | a comma between other characters does |
| `MakeGates.CheckRecipe` | scripts/check-gate-parity.py:275-305 | the recipe under the target's header, blank and comment lines skipped, and whether there is one |
| `MakeGates.RecipeExactly` | scripts/check-gate-parity.py:283-305 | a recipe is every line that begins with a tab, from the first line headed by the target up to the first that neither begins with a tab, nor is blank, nor is a comment |
| `MakeGates.InvocationsWithRecursion` | scripts/check-gate-parity.py:396-410 | a call returns exactly the invocations of the targets it newly adds to the shared `seen`, and leaves nothing reachable unexplored |
| `MakeGates.ReachedCalls` | scripts/check-gate-parity.py:396-410 | started fresh it terminates, cycles included, and returns the invocations of all targets reachable through `$(MAKE)` |
| `MakeGates.UndefinedReachesNothing` | scripts/check-gate-parity.py:396-410 | a target without a recipe reaches no invocation |
| `MakeGates.WorkflowInvocations` | scripts/check-gate-parity.py:371-380 | what a workflow invokes itself or through its `make` targets |
| `MakeGates.UnionInvocations` | scripts/check-gate-parity.py:438-444 | what any workflow, or any pull-request workflow, invokes |
| `MakeGates.Report` | scripts/check-gate-parity.py:452-472 | one problem for each call of a set, in sorted order, with its reason |
| `MakeGates.Compare` | scripts/check-gate-parity.py:451-473 | every difference between the two lists, both ways, and no other problem |
| `MakeGates.NoProblemIffAgree` | scripts/check-gate-parity.py:451-473 | nothing is reported exactly when the sets agree and the register is as large as it is pinned |
| `MakeGates.AgreeAsSets` | scripts/check-gate-parity.py:428-449 | the agreement of the computed sets is the agreement of what `make check` and the workflows run |
| `MakeGates.Divergence` | scripts/check-gate-parity.py:422-473 | nothing is reported exactly when the pull-request gates are the disjoint union of those of `make check` and the register, which has its pinned size; otherwise each kind of report is made exactly when what it says of what is run, or of the register, is so |
| `DependencyGraph.Reach` | scripts/check-banned-deps.py:776-802 | the worklist ends with exactly the nodes to which paths of edges lead, each edge carrying one of the kinds, and none from a workspace member to the cut name |
| `DependencyGraph.Visit` | scripts/check-banned-deps.py:789-800 | one node's edges are followed: new targets are noted and stacked, and no allowed one is missed |
| `DependencyGraph.ReachedExact` | scripts/check-banned-deps.py:776-802 | a node is reached exactly when some path from the roots witnesses it |
| `DependencyGraph.StepOfKind` | scripts/check-banned-deps.py:790-791 | for one kind and no cut, a step is an edge that carries the kind |
| `DependencyGraph.StepOfKinds` | scripts/check-banned-deps.py:790-791 | a step over several kinds is a step over one of them |
| `DependencyGraph.StepUncut` | scripts/check-banned-deps.py:792-797 | a cut takes the steps from workspace members to the packages of its name, and no others |
| `DependencyGraph.ReachesByEdges` | scripts/check-banned-deps.py:776-802 | a node is reached exactly when a path of such edges leads to it |
| `DependencyGraph.ReachedMonotone` | scripts/check-banned-deps.py:776-802 | more roots or kinds reach no less, and a cut reaches no more |
| `DependencyGraph.KeptExact` | scripts/check-banned-deps.py:887-894 | a package survives the cut exactly when some path to it avoids every workspace edge to the cut name |
| `DependencyGraph.LostExact` | scripts/check-banned-deps.py:887-894 | the exclusive closure counts exactly the names every path to which uses such an edge |
| `DependencyGraph.LostOfSinglePackage` | scripts/check-banned-deps.py:887-894 | for a name of one package it is empty exactly when the package survives its own cut, and otherwise includes it |
| `LedgerFacts.LedgerFacts.constructor` | scripts/check-banned-deps.py:810-826 | no facts yet |
| `LedgerFacts.LedgerFacts.MergeVersions` | scripts/check-banned-deps.py:862-867 | versions are united by name, and a name is duplicated by two versions in one lock |
| `LedgerFacts.LedgerFacts.MergeMetrics` | scripts/check-banned-deps.py:884-916 | flags are disjoined, the larger closure stands, and closures of direct names are united |
| `LedgerFacts.LedgerFacts.Merge` | scripts/check-banned-deps.py:855-916 | merging in place is joining the old facts with those of the lock |
| `LedgerFacts.Measure` | scripts/check-banned-deps.py:885-906 | the metrics of one name in one lock, and what a direct name closes over |
| `LedgerFacts.CollectFacts` | scripts/check-banned-deps.py:963-974 | the facts of a list of locks are their fold |
| `LedgerFacts.MergeOrderIrrelevant` | scripts/check-banned-deps.py:855-916 | any permutation of the locks gives the same facts |
| `FactSources.FoldInStep` | scripts/check-banned-deps.py:855-916 | metrics and versions keep the same keys, and release ids stay among the reachable |
| `FactSources.ReportAddsUp` | scripts/check-banned-deps.py:1380-1391 | dev-only plus release is reachable |
| `FactSources.EdgesHaveSources` | scripts/check-banned-deps.py:876-899 | a merged name is direct, or in a closure, exactly when it is so in some lock |
| `FactSources.VersionsHaveSources` | scripts/check-banned-deps.py:862-867 | a version or a duplication stands exactly when some one lock has it |
| `FactSources.FlagsHaveSources` | scripts/check-banned-deps.py:884-916 | release, wasm, build-script and proc-macro hold of a name exactly when some lock has it and, there, an external package of the name is so reached or so marked |
| `FactSources.DirectExact` | scripts/check-banned-deps.py:876-881 | a name is direct exactly when some workspace member has an edge to an external package of the name |
| `FactSources.IdsHaveSources` | scripts/check-banned-deps.py:869-874 | the ids counted are those some lock reaches over edges of the right kinds from the right roots |
| `FactSources.CountsAddUp` | scripts/check-banned-deps.py:863 | the package count is that of all locks together |
| `FactSources.ExclusiveExact` | scripts/check-banned-deps.py:887-901 | the exclusive closure of a direct name is the number of names that only workspace edges to it keep, and of any other name nothing |
| `FactSources.ClosureIsLargest` | scripts/check-banned-deps.py:907-916 | the merged exclusive closure is the largest any lock gives |
| `Ledger.CheckRows` | scripts/check-banned-deps.py:1091-1172 | the reasons of each row, row by row in order of name |
| `Ledger.VerdictReasons` | scripts/check-banned-deps.py:1091-1155 | no verdict reason is given exactly when the verdict and its record are sound |
| `Ledger.HolderReasons` | scripts/check-banned-deps.py:1156-1171 | no holder reason is given exactly when the holder closes over the name |
| `Ledger.PresenceFailures` | scripts/check-banned-deps.py:1175-1192 | names without a row, then rows without a name, each in order of name and once |
| `Ledger.LedgerFailures` | scripts/check-banned-deps.py:1204-1270 | the failures are exactly the reasons of each name, and there is none exactly when every name is sound |
| `Ledger.NoFailureIffSound` | scripts/check-banned-deps.py:1204-1270 | a name has no reason against it exactly when its row meets every rule |
| `LedgerPaths.ClosureIsHeld` | scripts/check-banned-deps.py:895-899 | being in a direct name's closure is having an edge path from a package of that name |
| `LedgerPaths.SoundRowsAreHeld` | scripts/check-banned-deps.py:1156-1171 | in a sound ledger each row not directly depended on has such a path from its holder and from its category's package, in some lock where that one is direct |
| `LedgerPaths.DirectVersionsHoldAll` | scripts/check-banned-deps.py:884-899 | the versions of a name that members depend on lead to as much as all its versions do exactly when they lead to those |
| `LedgerPaths.HoldersDirectExactly` | scripts/check-banned-deps.py:884-899 | every holder of a name is the package depended on exactly when no other version leads to a name that those depended on do not lead to |
| `LedgerPaths.HangingHolderIsDirect` | scripts/check-banned-deps.py:884-899 | so it is when the packages depended on lead to all the versions, which is not needed |
| `LedgerPaths.SingleHolderIsDirect` | scripts/check-banned-deps.py:884-899 | and so it is with one package of the holder's name |
| `LedgerPaths.HolderMayBeAnotherVersion` | scripts/check-banned-deps.py:884-899 | a graph in which the path starts at another version than the one depended on |
| `LedgerUpdate.UpdatedPackages` | scripts/check-banned-deps.py:1328-1351 | every listed or resolved name gets its updated row, and the skeletons and stale names come out sorted and complete |
| `LedgerUpdate.UpdateIsIdempotent` | scripts/check-banned-deps.py:1328-1351 | a second update changes nothing and adds no skeleton |
| `LedgerUpdate.UpdateKeepsAuthored` | scripts/check-banned-deps.py:1333-1344 | what a person wrote in a row stays, and a stale row stays whole |
| `LedgerUpdate.UpdateCures` | scripts/check-banned-deps.py:1328-1351 | after an update no name is unlisted and no metric drifts |
| `LedgerUpdate.SoundLedgerIsUpToDate` | scripts/check-banned-deps.py:1204-1270 | a ledger without failures is a fixed point of the update |
| `LedgerReasons.ReasonsExactly` | scripts/check-banned-deps.py:1091-1270 | each reason is given against a row exactly when what it says of the row and the facts is so |
| `LedgerReasons.SkeletonsFail` | scripts/check-banned-deps.py:1345-1348 | after an update each new row is refused for having no category, no reason and no verdict, and no holder if it needs one |
| `TomlText.ChainEscapesEach` | scripts/check-banned-deps.py:1278-1286 | the chained replacements are one escape of each character |
| `TomlText.StringRoundTrip` | scripts/check-banned-deps.py:1278-1286 | the "String" section of TOML v1.0.0 reads a written string back exactly when newline and tab are its only control characters |
| `TomlText.HeadExactly` | scripts/check-banned-deps.py:1322-1325 | the head is the text up to the first marker, or all of it without one, the newlines it ends in replaced by two |
| `TomlText.RewritingKeepsHead` | scripts/check-banned-deps.py:1322-1325 | the head split off is the same after re-rendering |
| `LedgerText.RenderPackages` | scripts/check-banned-deps.py:1297-1319 | the section rendered row by row and key by key is the specified one, rows in order of name |
| `LedgerText.RowInOrder` | scripts/check-banned-deps.py:1300-1318 | a row is its header, the lines of its keys in the order they are written in, and an empty line |
| `LedgerText.FieldsSpelled` | scripts/check-banned-deps.py:1303-1317 | each key has its line, spelled out, the optional ones only when they are set |
| `Decimal.NumberRoundTrip` | scripts/check-banned-deps.py:1289-1294 | an integer that is written reads back as itself |
| `LedgerRoundTrip.SectionRoundTrip` | scripts/check-banned-deps.py:1297-1319 | the section reads back, values of other types as the strings they are shown as, exactly when all its strings can be written; otherwise it is not TOML |
| `LedgerRoundTrip.SectionRoundTripsExactly` | scripts/check-banned-deps.py:1775-1779 | it reads back as it was exactly when, besides, there is no such value |
| `LedgerRoundTrip.SectionIsFound` | scripts/check-banned-deps.py:1322-1325 | below the head that is written the next run finds the section that was written, and nothing else |
| `LedgerRoundTrip.AuthoredHeadKept` | scripts/check-banned-deps.py:1359-1366 | an update leaves what is above the marker, but for the newlines it ends in, and writes the section after a blank line |
| `LedgerRoundTrip.AuthoredLinesKept` | scripts/check-banned-deps.py:1359-1366 | every line above the marker that is not empty comes out as it was and where it was |
| `LedgerRoundTrip.TextUpdateIsIdempotent` | scripts/check-banned-deps.py:1359-1366 | a second update leaves the text as it is exactly when all strings can be written; otherwise it cannot read it |
| `CacheNames.StemOfScratch` | scripts/benchmark-acquire.py:501-522 | quarantine recovers the artifact's name from every pid-tagged scratch name |
| `CacheNames.StemOfArtifact` | scripts/benchmark-acquire.py:501-517 | a name is left alone exactly when it does not itself end like a scratch name |
| `CacheNames.StemExactly` | scripts/benchmark-acquire.py:515 | a name that ends in `.part`, or in that, a full stop and a process id, loses that ending, and any other is left alone |
| `CacheNames.ScratchInjective` | scripts/benchmark-acquire.py:520-522 | two processes, or two artifacts, never share a scratch name |
| `CacheNames.ScratchNotHeld` | scripts/benchmark-acquire.py:501-522 | a scratch name is never a quarantine name |
| `ArtifactCache.CacheDir.Quarantine` | scripts/benchmark-acquire.py:501-517 | the file moves, whole, to the name of its digest |
| `ArtifactCache.CacheDir.VerifyAndInstall` | scripts/benchmark-acquire.py:525-589 | matching bytes are installed, any others quarantined under their own digest |
| `ArtifactCache.CacheDir.InstallVerifiedBytes` | scripts/benchmark-acquire.py:592-607 | bytes in hand are verified and installed, or quarantined, in the same way |
| `ArtifactCache.CacheDir.Transfer` | scripts/benchmark-acquire.py:632-674 | the scratch file holds what was received, and completeness is the server's word |
| `ArtifactCache.CompleteByLength` | scripts/benchmark-acquire.py:645-674 | a transfer is complete exactly when nothing is raised and no more is declared than was received |
| `ArtifactCache.CacheDir.DownloadVerified` | scripts/benchmark-acquire.py:621-691 | the first of three transfers that raises nothing and is as long as declared is judged by its bytes; after none the scratch file is gone |
| `ArtifactCache.CacheDir.EnsureCached` | scripts/benchmark-acquire.py:697-748 | a cached file is a hit or is quarantined; only a missing one is fetched |
| `ArtifactCache.CacheDir.Acquire` | scripts/benchmark-acquire.py:1437-1468 | artifact by artifact, the first that fails ending the run with the files as it left them |
| `ArtifactCache.AcquireVerifies` | scripts/benchmark-acquire.py:1437-1468 | a pass means every artifact is cached with the pinned digests; a failure is that of the first that could not be, those before it verified |
| `ArtifactCache.SuccessVerified` | scripts/benchmark-acquire.py:697-748 | a normal return means verified bytes, and no other file is touched |
| `ArtifactCache.FailedCacheIsQuarantined` | scripts/benchmark-acquire.py:708-742 | a failed cache file is kept under its digest and nothing is fetched over it |
| `ArtifactCache.FailedDownloadIsQuarantined` | scripts/benchmark-acquire.py:547-585 | so is a failed download, under the artifact's name |
| `ArtifactCache.HoldingLosesNothing` | scripts/benchmark-acquire.py:501-517 | a quarantine overwrites only the same bytes, where digest prefixes do not collide |
| `ArtifactCache.EvidenceKeptForever` | scripts/benchmark-acquire.py:501-517 | quarantined bytes survive any number of later runs |
| `CacheSafety.StepKeeps` | scripts/benchmark-acquire.py:520-748 | each atomic step of each process keeps the invariant |
| `CacheSafety.PowerLossKeeps` | scripts/benchmark-acquire.py:568-589 | so does falling back to any earlier directory with unsynced bytes turned to garbage |
| `CacheSafety.PowerLossLeavesAny` | scripts/benchmark-acquire.py:568-589 | any earlier directory may be what is left, with anything at all in the files that were not synced |
| `CacheSafety.RunKeeps` | scripts/benchmark-acquire.py:520-748 | and so does every run |
| `CacheSafety.VerifiedOrAbsent` | scripts/benchmark-acquire.py:520-748 | in every interleaving an artifact's name holds its starting bytes, nothing, or bytes matching every pin |
| `CacheRace.QuarantineCanBeMisnamed` | scripts/benchmark-acquire.py:709-733 | whenever the two digests begin differently, some run leaves a good file under the digest of a bad one, a name other than its own |
| `QuarantineNames.ActionLeaves` | scripts/benchmark-acquire.py:520-748 | only an install of the artifact puts bytes under its name, and they match; any other step leaves what stood there or nothing |
| `QuarantineNames.StandingExactly` | scripts/benchmark-acquire.py:520-748 | after any run without power loss an artifact's name stands for nothing, for what it stood for before if no step installed the artifact, and for bytes that match if one did |
| `QuarantineNames.QuarantineNamedExactly` | scripts/benchmark-acquire.py:709-723 | a file condemned for its SHA-256 is moved to the name of its own digest exactly when no process installed the artifact between the hashing and the move, or the pinned digest begins as the bad one |
| `QuarantineNames.Md5QuarantineNamedRight` | scripts/benchmark-acquire.py:724-742 | a file condemned for its MD5 is always moved to the name of its own digest |
| `CacheRefinement.StepAdvances` | scripts/benchmark-acquire.py:525-748 | a step of a process that is left to itself leads where its run was heading, with fewer steps to go |
| `CacheRefinement.AloneIsEnsureCached` | scripts/benchmark-acquire.py:525-748 | whatever the network answers, such a run ends within 16 steps and one for each chunk, and leaves the names and bytes that acquiring the artifact is specified to leave |
| `CacheVerdicts.OwnStepJudges` | scripts/benchmark-acquire.py:536-587 | once a download is read, each step of its process brings the bytes nearer to the name they are to have, or gives it to them |
| `CacheVerdicts.OtherStepSame` | scripts/benchmark-acquire.py:520-748 | no step of another process touches a scratch file |
| `CacheVerdicts.VerdictCarriedOut` | scripts/benchmark-acquire.py:525-589 | in every interleaving, within five steps of its process a download that is read is given the artifact's name if it matches every pin, and that of its own digest if not; until then it stays in the scratch file |
| `Reflow.ReflowedOffsets` | scripts/check-doc-claims.py:318-332 | the list built run by run is the offset map |
| `Reflow.OffsetsExact` | scripts/check-doc-claims.py:318-332 | the map is as long as the reflow, strictly increasing, onto the shown offsets, each character its own or the space of the run beginning there |
| `Reflow.MapsAgree` | scripts/check-doc-claims.py:318-332 | there is no other such map |
| `Reflow.ReflowedLine` | scripts/check-doc-claims.py:335-339 | the raw line of the character a reflowed one stands for, past the end the last line |
| `ReflowLaws.ReflowConcat` | scripts/check-doc-claims.py:294-302 | reflow goes piece by piece unless a run of white space spans the seam |
| `ReflowLaws.OneNormalization` | scripts/check-doc-claims.py:305-315 | splitting into words and joining them is reflowing and stripping, in either order |
| `Paragraphs.JoinLines` | scripts/check-doc-claims.py:1457-1463 | the lines joined, and where each starts |
| `Paragraphs.Spans` | scripts/check-doc-claims.py:1465-1470 | the spans between separators, the full-width stops needing no space after them |
| `Paragraphs.LineOf` | scripts/check-doc-claims.py:1477 | the last line to start at or before an offset |
| `Paragraphs.ParagraphSentences` | scripts/check-doc-claims.py:1445-1479 | the nonblank spans in order, each with the line that covers where it begins |
| `ParagraphLaws.JoinedIsReflow` | scripts/check-doc-claims.py:1451-1463 | the joined paragraph is the normal form of the raw text, whatever white space broke its lines |
| `ParagraphLaws.WrapInvariance` | scripts/check-doc-claims.py:1445-1479 | nonblank lines with equal reflowed joins give the same sentence texts in the same order |
| `ParagraphLaws.ParagraphConserves` | scripts/check-doc-claims.py:1445-1479 | a paragraph's sentences hold its characters in order, white space aside |
| `ParagraphLines.SentencesAreWhole` | scripts/check-doc-claims.py:1465-1479 | each sentence begins at a character, runs over no separator and stops at one or at the end, and no two overlap |
| `ParagraphLines.SentencesStopAtStops` | scripts/check-doc-claims.py:1442 | a sentence holds no `.`, `!` or `?` before white space, and no full-width stop, but at its end; and if the paragraph goes on, it ends in one |
| `ParagraphLines.SentencesStartOnTheirLines` | scripts/check-doc-claims.py:1448-1449 | a sentence starts on the line reported for it, at the character after what the sentences before it hold of the paragraph, and reads on as that line does |
| `ParagraphLines.SentenceNumbersAscend` | scripts/check-doc-claims.py:1472-1479 | numbers never decrease in a paragraph whose lines are in order |
| `MarkdownBlocks.Sentences` | scripts/check-doc-claims.py:1490-1542 | the buffer and fence flag cut the document into the blocks a reader looking ahead would, and each is split into its sentences |
| `MarkdownBlocks.ReadLine` | scripts/check-doc-claims.py:1523-1540 | one line keeps the state of that reading: fence, gap, code, row, opener or prose |
| `MarkdownBlocks.EmitApart` | scripts/check-doc-claims.py:1533-1537 | each cell of a row is a block of its own |
| `BlockForms.OpenersByForm` | scripts/check-doc-claims.py:1434 | a line opens a block exactly when it is indented by white space and then begins with one to six number signs, a list mark or a list number and white space, or with a bar |
| `BlockForms.FencedIsOdd` | scripts/check-doc-claims.py:1435-1527 | a line is fenced exactly when an odd number of lines before it begin, after white space, with three backquotes or tildes |
| `BlockForms.GoesOnExactly` | scripts/check-doc-claims.py:1523-1541 | a line is in the block of the line before it exactly when both are running text outside fences and it has none of those forms |
| `BlockForms.BlocksOpenOnce` | scripts/check-doc-claims.py:1523-1541 | no block holds past its first line one of those forms, a fence or a blank line, and its lines follow each other |
| `BlockForms.OthersStandAlone` | scripts/check-doc-claims.py:1528-1537 | a line inside a fence is a block of its own, and so is each cell of a row outside |
| `BlockForms.CellsExactly` | scripts/check-doc-claims.py:1535 | a row is cut at its bars and nowhere else |
| `MarkdownLaws.SentencesConserve` | scripts/check-doc-claims.py:1490-1542 | the output's characters are the input's, in order, but for white space, fence delimiters and the bars of unfenced rows |
| `MarkdownLaws.PlainTextConserved` | scripts/check-doc-claims.py:1490-1542 | without fences and rows nothing but white space is dropped |
| `MarkdownLaws.CellsKeep` | scripts/check-doc-claims.py:1533-1537 | the cells of a row hold its characters but for the bars |
| `MarkdownLines.SentencesLieOnTheirLines` | scripts/check-doc-claims.py:1490-1542 | each sentence begins at a character of the line it is reported on, these characters follow each other in the text, and the text before each holds, of what is kept, exactly what the sentences before it do |
| `MarkdownLines.OriginIsUnique` | scripts/check-doc-claims.py:1490-1542 | no other character, and so no other line, would do |
| `MarkdownLines.ArmsAgree` | scripts/check-doc-claims.py:335-339 | where a sentence begins, the line counted by newlines is the one it is reported on exactly when every break before is a newline, alone or after a carriage return |
| `LineLayout.NumbersAgree` | scripts/check-doc-claims.py:335-339 | so it is for any character of a text; otherwise the count gives a smaller number |
| `SentenceOrigins.StretchIsReflow` | scripts/check-doc-claims.py:1451-1463 | a joined paragraph is the normal form of its raw text in the document, line breaks and all |
| `SentenceOrigins.ParagraphOccurs` | scripts/check-doc-claims.py:1451-1455 | a joined paragraph occurs in the reflowed text |
| `SentenceOrigins.SentenceOccurs` | scripts/check-doc-claims.py:1451-1455 | so does every sentence of the document: sweep and membership agree on what an occurrence is |
| `SentenceOrigins.WrittenAreSentences` | scripts/check-doc-claims.py:1490-1542 | the sentences written are exactly those of the blocks |
| `DocumentWrapping.SentencesIgnoreWrapping` | scripts/check-doc-claims.py:1490-1542 | documents that differ only in how their paragraphs wrap, each paragraph as long as its lines are prose, have the same sentence texts in the same order |
| `Patterns.Search` | scripts/check-doc-claims.py:1559 | the leftmost match is found exactly if there is one |
| `Patterns.FindAll` | scripts/check-doc-claims.py:1594 | disjoint matches from the left, inside one of which every match begins |
| `Patterns.LiteralFires` | scripts/check-doc-claims.py:1241-1244 | a literal is found exactly where the text reads it, case aside |
| `BannedClaims.MatchHoldsMarker` | scripts/check-doc-claims.py:1161-1221 | whatever its halves are, no match of a composed pattern omits the marker |
| `BannedClaims.MarkedMatchesSomething` | scripts/check-doc-claims.py:1158-1221 | a composed pattern never matches the empty string |
| `ClaimComposition.PatternExact` | scripts/check-doc-claims.py:1161-1221 | a marked pattern matches a stretch exactly when its first half matches up to a place where the marker is read and its second half from there to the end |
| `ClaimComposition.RefusedExactly` | scripts/check-doc-claims.py:1186-1220 | which parts are refused, and for which of the three reasons |
| `ClaimComposition.SpelledByWords` | scripts/check-doc-claims.py:1158 | a marker may be used exactly when it is lower-case words with single spaces between them |
| `BannedClaims.ClaimCarriesMarker` | scripts/check-doc-claims.py:1378-1389 | a text whose reflow a marked claim matches carries that claim's marker |
| `BannedClaims.RelaxedExact` | scripts/check-doc-claims.py:1247-1256 | a marker relaxed over white space is found in raw text exactly when the marker is in the reflowed text |
| `BannedClaims.ProbeExact` | scripts/check-doc-claims.py:1257-1266 | the probe matches raw text exactly when some marker occurs in the reflowed text |
| `OverclaimBan.OverclaimsIn` | scripts/check-doc-claims.py:1545-1566 | one problem for each claim each unscoped sentence makes, in order, with a stretch that matches |
| `OverclaimBan.HitsExactly` | scripts/check-doc-claims.py:1557-1560 | a claim is hit exactly when a sentence without the scope phrase makes it, and the hit names that sentence and its line |
| `OverclaimBan.ProbeMissesNothing` | scripts/check-doc-claims.py:1588-1589 | the early return drops no hit |
| `OverclaimBan.ReachHits` | scripts/check-doc-claims.py:1569-1603 | all matches of each marked claim, none of another, each at the raw line of its first character |
| `OverclaimBan.ReachIsExact` | scripts/check-doc-claims.py:1569-1603 | something is reported exactly when some marked claim matches the reflowed text |
| `SweptSet.ClaimUnits` | scripts/check-doc-claims.py:1409-1427 | exactly the units of the corpus that carry a marker |
| `SweptSet.FilesExactly` | scripts/check-doc-claims.py:1401-1405 | a file is in the corpus exactly when it is Markdown and not the gate script |
| `SweptSet.SentenceCarriesMarker` | scripts/check-doc-claims.py:1424-1426 | a sentence that makes a marked claim is in a document that carries its marker |
| `SweptSet.NoHitsIffClean` | scripts/check-doc-claims.py:1545-1566 | there is no hit exactly when each sentence is scoped or makes no claim |
| `SweptSet.HitsIgnoreWrapping` | scripts/check-doc-claims.py:1490-1566 | in documents that differ only in how their paragraphs wrap the same sentences make the same claims, and the same are exempt |
| `SweptSet.SweepIgnoresWrapping` | scripts/check-doc-claims.py:1545-1566 | the sweep reports the same claims of the same sentences of both |
| `SweptSet.Sweep` | scripts/check-doc-claims.py:1754-1757 | every unit is read, in order, and its problems named after it |
| `SweptSet.ReachArm` | scripts/check-doc-claims.py:1606-1632 | exactly the units outside the swept set are visited, the gate script aside, and all their hits returned |
| `BanCoverage.ReportedIffMissed` | scripts/check-doc-claims.py:1606-1632 | a unit is reported exactly when it makes a marked claim and is not swept |
| `BanCoverage.NoUnitEscapes` | scripts/check-doc-claims.py:1710-1729 | a unit that makes a marked claim is swept or reported, never both; the swept ones are the prose |
| `BanCoverage.EscapesIffNameIsShared` | scripts/check-doc-claims.py:1606-1632 | a unit with a claim goes unreported exactly when a swept unit has its name |
| `BanCoverage.VisitCount` | scripts/check-doc-claims.py:1799-1811 | the reach arm visits all the units there are but the swept |
| `BanCoverage.ExpectedVisits` | scripts/check-doc-claims.py:1799-1811 | that is the number the script checks for exactly when the surface lists the gate script once |
| `BanCoverage.BoundedEverywhere` | scripts/check-doc-claims.py:1680-1812 | if nothing is reported, every prose sentence with a marked claim, swept or not, carries the scope phrase |
| `BanCoverage.BannedOverclaims` | scripts/check-doc-claims.py:1680-1812 | sweep and reach are empty exactly when the swept units are clean and no other unit makes a marked claim; an empty swept set is refused |

## Left out

- BanCoverage.BannedOverclaims: does not model the coverage arm over the documents the script names as constants, the limit of the sentence cache, nor the floor on the number of markers; one marked claim is asked for instead of four.
- BanCoverage.NoUnitEscapes: asks for distinct unit names, which are repository paths; without them `EscapesIffNameIsShared` holds.
- Patterns.Search: which of several matches that begin at one place is taken, and so the quoted text of a problem, is left open.
- Patterns.FindAll: patterns that match the empty string are excluded; composed ones never do.
- MarkdownBlocks.Sentences: what `\d` matches is a parameter.
- BlockForms.GoesOnExactly: no digit is white space, a full stop or a closing parenthesis, as none that `\d` matches is.
- BannedClaims.ProbeExact: case folding is a parameter that keeps white space apart from word characters and the plain space from everything else.
- Reflow.ReflowedLine: counts newlines only, as the code does, while `_sentences` counts every break of `str.splitlines`; `MarkdownLines.ArmsAgree` says when the two arms number lines alike.
- ArtifactCache.CacheDir.EnsureCached: follows the code, which checks a cached file's SHA-256 and MD5 but not its size; the script's header speaks of every pinned identity.
- ArtifactCache.CacheDir.Acquire: prints and exit codes are left out.
- ArtifactCache.AcquireVerifies: no artifact may be named like another's scratch file.
- ArtifactCache.FailedCacheIsQuarantined: with a name that ends like a scratch file the quarantine name drops that ending; `CacheNames.StemOfArtifact` says for which names.
- CacheNames.StemOfArtifact: `\d` is taken as the ASCII digits, and names hold no newline.
- CacheRefinement.AloneIsEnsureCached: speaks of names and bytes; what a process prints and how it exits is not part of its state.
- CacheVerdicts.VerdictCarriedOut: the process is not killed and power is not lost; what follows then is `CacheSafety.VerifiedOrAbsent`.
- CacheSafety.VerifiedOrAbsent: live processes have distinct ids, and the disk obeys fsync and atomic rename.
- TomlText.StringRoundTrip: the decoder has no Unicode escapes, which the writer never emits.
- LedgerText.RenderPackages: a row always has a category and a reason, perhaps empty; the script writes a missing category as `UNCATEGORIZED`.
- LedgerRoundTrip.TextUpdateIsIdempotent: the reader knows the layout that is written, not all of TOML, and the head above the marker is taken to hold no `[packages]` table.
- MakeGates.Divergence: finding invocations and `make` targets in recipe text, and in YAML, is a parameter that finds nothing in an empty recipe.
- RustLexer.RustComments: `str.isalpha` and `str.isalnum`, which tell a lifetime from a character literal, are parameters.
- LedgerFacts.CollectFacts: the library roots it also collects, which only the check of home modules reads, are left out with that check.
- LedgerFacts.Measure: the graph is given; reading `cargo metadata`, lockfiles and target platforms is left out.
- Ledger.CheckRows: whether a home module exists is a parameter; reading source trees for it is left out.
- Hash functions are arbitrary, and the network is arbitrary bytes.
- `_named_params`, `_braced_block` and `_decorated` in the entailment gate: further bracket counting of the kind `ParamSplitter` shows.
- Messages, their wording, snippets quoted in them, and the exit codes of all six scripts.
- The self-tests and mutation tables of the scripts, which are finite.
- The number claims of `check-doc-claims.py` (`build_claims` and its parsers), each a pattern and a number.
