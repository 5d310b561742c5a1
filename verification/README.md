# Verified models of repository tooling

Dafny models of the parts of this repository that decide something by an algorithm, and proofs of
what those algorithms promise. Each module models one script or one component of it:

- **Guard-inverting inliner** (`JsLang`, `JsText`, `GuardInversion`, `FreshNames`, `CallerFrames`,
  `Renaming`, `InlinePlan`, `InlineCorrect`, `CallSites`, `EarlyErrors`, `InlineTheorem`, `Callees`,
  `Rewriting`, `InlineRounds`, `Analysis`, `InlineFiles`, `FileMachines`, `CapturedReads`,
  `InlineLimits`): a small JavaScript with scopes, a temporal dead zone, early errors, effectful
  primitives and thrown errors; printing and precedence parsing; the proof that in strict mode the block that replaces a
  call does what the call did, in any caller; the analysis; and the proof that its rounds of inlining
  keep what the functions of a file do. The header of the script claims soundness outright; the code
  is modelled as it is, and the proof needs five conditions on names:
  - the names bound around the call are not names the helper takes from outside. The tool tests
    this, but overlooks names that the tail also declares; `CallSites` says exactly when its test is
    right.
  - `GuardsSeeNoLocals`: no guard names a local of the tail, which the condition no longer sees.
  - `NoClash`: no name the block adds is one the helper takes from outside.
  - `NoInnerCapture`: no reference is replaced by a name that the tail declares around it. It speaks
    only of references where they stand.
  - `KeepsParams`: no name added to the body of a function is one of its parameters. The tool reserves
    only names that the body mentions. This condition is exact.

  `InlineLimits` gives an input for each on which the tool goes wrong without it. In the other
  direction, `CapturedReadThrows` shows that a captured parameter read before the declaration that
  captures it makes the block throw. For captured references no condition on names alone is exact: in
  `CapturedForNothing` the captured reference is evaluated and nothing differs on any machine, since
  what is read there is discarded. Whether the value matters is a property of what the primitives do
  with it, which is a parameter of the model.
- **Incremental session sync** (`SessionSync`, `SessionTables`, `LongestRepeat`): syncing a growing log
  piece by piece against one rebuild, and what the tables of a rebuild hold.
- **Changelog fixer** (`ChangelogText`, `Cutting`, `ChangelogDocument`, `ChangelogItems`,
  `ChangelogFix`, `ChangelogConverge`, `ChangelogPasses`, `ChangelogOnePass`, `NumberedItems`,
  `ReleasedDuplicates`, `ReleaseDrops`, `Boards`, `Promotion`, `PromotionRun`, `PromotionLoop`,
  `ChangelogFixer`, `ReleaseOrder`, `ChangelogLayout`, `ChangelogConservation`, `DiffPairing`,
  `DiffLines`): parsing and rendering are inverse up to padding, two passes always reach a fixed
  point and one does exactly under a stated condition, no text is lost, and the diff counter pairs
  greedily.
- **Interval coverage** (`Intervals`, `PairReplay`, `ReadReplay`, `BlockBoundaries`): three engines
  with one canonical form, the two replays built on them, and the syntax-tree walk.
- **Edit application** (`Utf8`, `ApplyEdits`).
- **Clone clusters and export closure** (`UnionFind`, `CloneClusters`, `CloneRegions`, `ExportClosure`).
- **Test worker pool** (`WorkerPool`): all interleavings of worker turns.
- **Edit prefix parser** (`EditBoundary`, `EditPrefix`): the scan, and which lines of a text it takes.
- `Sorting` is the stable library sort that several of them use, `Sifting` says which elements of a list
  are kept, `PythonText` has the white space of the Python scripts, and `Basics` holds an option type
  and the smaller and larger of two numbers.

Things the models cannot see become parameters: the hash of a window, the decoder of a log line,
the line patterns of the edit grammar, the numbers of a version title, the header of a diff hunk,
path arithmetic, and the results of test runs. Loops and updates are methods proved against
specification functions; the properties are lemmas about those functions.

`dafny verify dfyconfig.toml` checks the whole project.

## Model

| member | source | states |
|---|---|---|
| `JsText.ParseOfPrint` | scripts/inline-functions.ts:303-313 | The printed form of every tree the parser can build is read back as that tree, under the precedence and left association that decide where the inliner may omit parentheses |
| `JsText.JoinLeftMeaning` | scripts/inline-functions.ts:325-345 | Re-associating an `&&` or `||` chain to the left, as omitted parentheses do, changes neither its value nor its effects |
| `GuardInversion.NegateText` | scripts/inline-functions.ts:315-345 | What `negate` prints is the text of the negated tree, at the precedence level it reports |
| `GuardInversion.NegTreeIsOpposite` | scripts/inline-functions.ts:315-345 | The negated tree is truthy exactly when the expression is falsy, throws exactly when it throws, and leaves the same state, for comparable operands |
| `GuardInversion.FlipIsComplementIffComparable` | scripts/inline-functions.ts:138-147 | A flipped relational operator is the complement if and only if the two operands are ordered |
| `GuardInversion.UnorderedGuardIsNotInverted` | scripts/inline-functions.ts:138-147 | With NaN-like operands a guard and its inversion are both falsy: a concrete input on which the flip is wrong |
| `GuardInversion.CombinedGuardsParse` | scripts/inline-functions.ts:347-360 | The text `combineGuards` prints parses, as the conjunction tree of the negated guards |
| `GuardInversion.JoinedTreeMeaning` | scripts/inline-functions.ts:352-360 | The conjunction is truthy exactly when no guard would have returned, after the same evaluations in the same order |
| `GuardInversion.CombinedGuardsMeaning` | scripts/inline-functions.ts:352-360 | The printed condition, parsed, tests exactly "no guard returned" and leaves the state that running the guards one by one leaves, side effects included |
| `FreshNames.Fresh` | scripts/inline-functions.ts:501-513 | The chosen name is not taken: the base name if that is free, else the first free one of its numbered variants |
| `FreshNames.FreshName` | scripts/inline-functions.ts:501-513 | The search ends on every finite set of taken names with the name `Fresh` describes |
| `Renaming.EvalAlike` | scripts/inline-functions.ts:294-301 | An expression under substitution evaluates like the original in related frames |
| `Renaming.ExecAlike` | scripts/inline-functions.ts:793-823 | Statements with their colliding locals renamed and parameters replaced run like the originals |
| `Renaming.ExecBlockAlike` | scripts/inline-functions.ts:793-823 | The same for nested blocks, whose own declarations are left alone |
| `InlinePlan.Partition` | scripts/inline-functions.ts:524-538 | The leading run of bare-return guards and the rest, which does not start with a guard |
| `InlinePlan.BuildReplacement` | scripts/inline-functions.ts:837-900 | The loops over parameters and locals compute the planned replacement and the names it takes (strict mode) |
| `InlineCorrect.PlanParamsFacts` | scripts/inline-functions.ts:848-881 | Temporaries are fresh for the block; every used parameter stands for its temporary or for `undefined` |
| `InlineCorrect.PrefixRun` | scripts/inline-functions.ts:848-881 | The prefix evaluates every argument once, left to right, unused ones included, with the outcome of evaluating the argument list |
| `InlineCorrect.BodyRun` | scripts/inline-functions.ts:596-735 | A helper body is its guards, run until one returns, and then its tail |
| `InlineTheorem.InlinedDeclares` | scripts/inline-functions.ts:874-898 | The replaced block declares only names the target block did not have |
| `InlineTheorem.InlinedIsLegal` | scripts/inline-functions.ts:772-784 | No block of the replacement declares a name twice, so it may stand in a function body exactly when it declares none of the parameters |
| `InlineTheorem.GuardlessTail` | scripts/inline-functions.ts:898-900 | Without guards the renamed tail, run in any caller's frame, does what the helper body does |
| `InlineTheorem.GuardedTail` | scripts/inline-functions.ts:890-896 | With guards the tail in a block under the inverted condition does what the helper body does, in any caller's frame |
| `InlineTheorem.BlockDoesTheCall` | scripts/inline-functions.ts:837-933 | Main result: in strict mode, for every helper, argument list, state and caller frame, the replacement runs like the call: same arguments in order, same trace, store, error and caller frame, up to the names it adds; and it is free of early errors exactly when none of these is a parameter of the function whose body it stands in |
| `InlineTheorem.InliningPreservesCall` | scripts/inline-functions.ts:837-933 | The program with the replacement has the trace, store and error of the call if and only if no name the block adds is a parameter of the caller, given comparable operands and the other four conditions on names |
| `CallSites.ShadowTestIsExactIff` | scripts/inline-functions.ts:419-452 | The tool's shadowing test never rejects a call site without need, and is exact about one if and only if it rejects it or no free name bound there is also declared inside the tail |
| `CallSites.ShadowTestIsRightIffHygienic` | scripts/inline-functions.ts:419-452 | The test is right about every call site if and only if no name is both free in the helper and declared in its tail |
| `CapturedReads.CapturedReadThrows` | scripts/inline-functions.ts:890-896 | A converse: where a captured parameter would be read before the declaration that captures it, the block throws, and so differs from every call that completes |
| `InlineLimits.ChainedTemporariesClash` | scripts/inline-functions.ts:890-896 | Concrete input that one round of the tool produces: inlining a guarded helper whose tail holds `__inl_x` from an earlier round makes the block throw where the call completes |
| `InlineLimits.ParameterDeclaredAgain` | scripts/inline-functions.ts:755-784 | Concrete file: a candidate whose local has the name of a parameter the caller does not mention; every other condition holds, and the tool writes a function with an early error |
| `InlineLimits.TemporaryHidesGlobal` | scripts/inline-functions.ts:772-784 | Concrete input: fresh names are chosen against the block of the call alone, so a temporary takes a name the helper reads from its module, and the argument is used in its place |
| `InlineLimits.CapturedForNothing` | scripts/inline-functions.ts:890-896 | Concrete input: a captured reference that is evaluated and yet makes no difference on any machine, so that no condition on names alone is exact |
| `InlineLimits.NestedDeclarationHidesFreeName` | scripts/inline-functions.ts:419-452 | Concrete input: a name both free and declared in a nested block is not seen as free, so a call site that shadows it is accepted and the result differs |
| `InlineLimits.GuardNamesLocal` | scripts/inline-functions.ts:890-896 | Concrete input: a guard that names a local of the tail throws in the call and reads another variable after inlining |
| `Rewriting.RewrittenIsLegalIff` | scripts/inline-functions.ts:755-784 | A function with its calls replaced is still legal if and only if no name added to its body is one of its parameters |
| `InlineRounds.RewrittenReplies` | scripts/inline-functions.ts:837-947 | Rewritten at all its call statements at any depth, a function replies as it did to every call of it in which the guards of the helper meet comparable operands |
| `InlineRounds.UnrelatedCallsCompare` | scripts/inline-functions.ts:138-147 | A helper that no relational operator guards meets that condition on every machine, NaN included |
| `InlineRounds.RoundKeepsMeaning` | scripts/inline-functions.ts:936-959 | A machine that runs the functions of a file runs those of the file after a round if and only if the round declares no parameter again; no call of the removed function is left |
| `InlineRounds.RoundsKeepMeaning` | scripts/inline-functions.ts:949-959 | So does every run of such rounds, and no function left calls one that is gone |
| `InlineRounds.RoundsNeedNoneGone` | scripts/inline-functions.ts:943-946 | The functions left do what they did whatever becomes of the names of the removed ones |
| `Analysis.CollectCandidates` | scripts/inline-functions.ts:596-746 | The candidates in source order: accepted body, not recursive, called by statements alone and at least once, with no surplus arguments and no visible shadowing |
| `Analysis.CandidateIff` | scripts/inline-functions.ts:596-746 | A function is taken if and only if it is eligible, its leading guards are followed by at least one statement and no more than the bound, none of them a return at whatever depth; it assigns none of its parameters and does not call itself; some other function has a statement, at whatever depth, that calls it; and every statement that does is nothing but that call, with no surplus argument, where none of the names it takes is bound |
| `InlineFiles.UncalledStays` | scripts/inline-functions.ts:725-725 | A function that no other function of the file calls is never inlined away, in whatever round |
| `InlineFiles.BlockIsFine` | scripts/inline-functions.ts:489-499 | Where the shadowing test is right and the plans meet the conditions on names, every accepted call site can be inlined, although the test sees none of the names the round adds |
| `InlineFiles.FileKeepsMeaning` | scripts/inline-functions.ts:949-959 | The candidates the loop takes, one after the other, are inlined without changing what the functions left do, as long as every round meets the conditions that are not tested |
| `InlineFiles.InlineFile` | scripts/inline-functions.ts:949-959 | Each round rewrites the callers of the first function that may be inlined, removes it and reports it; the result is the fold of those rounds; with at most 100 000 functions none is left at the end that may be inlined; a function that no other calls is still there |
| `FileMachines.MachineExists` | scripts/inline-functions.ts:949-959 | Every legal file without recursion has a machine that runs its functions, whatever the primitives do |
| `FileMachines.RoundOfTwo` | scripts/inline-functions.ts:949-959 | A round that meets all conditions: a helper inlined into a guarded one |
| `SessionSync.LinesJoin` | scripts/session-stats/sync.py:692-696 | A file that ends on a newline keeps its lines when more is appended |
| `SessionSync.LineCountAddsIff` | scripts/session-stats/sync.py:692-704 | Line numbers of two reads add up to those of one read if and only if the first read did not end inside a line |
| `SessionSync.IngestAddsOnly` | scripts/session-stats/sync.py:716-726 | A line only adds rows, all under its own sequence number, and only line 0 touches the metadata |
| `SessionSync.IngestAppends` | scripts/session-stats/sync.py:716-726 | A line adds the same rows whatever was collected before it |
| `SessionSync.ParseFile` | scripts/session-stats/sync.py:657-741 | Reading from an offset collects the rows of the remaining lines, numbered from the given sequence number, and returns the end of the file and the line count |
| `SessionSync.CollectJoin` | scripts/session-stats/sync.py:689-732 | What two consecutive pieces collect, appended, is what the whole collects |
| `SessionSync.CallsPastResults` | scripts/session-stats/sync.py:1003-1028 | The call upsert and the result upsert of an edit call commute, whatever rows exist |
| `SessionSync.ApplyJoin` | scripts/session-stats/sync.py:972-1039 | Two transactions in a row leave the tables that one transaction over both batches leaves |
| `SessionSync.SessionStore.WriteRecords` | scripts/session-stats/sync.py:956-1087 | The statements of one transaction, in their order, give the new tables and session row |
| `SessionSync.SessionStore.SyncFile` | scripts/session-stats/sync.py:1108-1133 | Deciding, parsing and writing give the specified new store |
| `SessionSync.SyncKeepsAgreement` | scripts/session-stats/sync.py:1108-1133 | One sync of a grown file keeps the store equal to a rebuild of what was read; it is skipped only if nothing was new when it looked |
| `SessionSync.AnySplitEqualsRebuild` | scripts/session-stats/sync.py:657-1133 | Main result: any history of syncs of a file that only grows, each ending on a newline, leaves the rows, offset, line count and metadata of one full rebuild |
| `SessionSync.RebuildRestoresIff` | scripts/session-stats/sync.py:1049-1058 | A full rebuild over an existing row equals a fresh rebuild if and only if the file still gives every metadata field that is stored |
| `SessionSync.StaleTitleSurvives` | scripts/session-stats/sync.py:1049-1058 | Concrete input: a log that was emptied keeps its old title |
| `SessionTables.RebuiltHolds` | scripts/session-stats/sync.py:657-1087 | What a rebuild leaves, straight from the decoded lines: every table holds a row exactly for the lines that carry one, each under its line number and call id, with an edit row and a section row taken from the last call of the id, success and warnings from the last verdict on it and unset without one, and metadata from a header on line 0 alone |
| `SessionTables.HistoryHolds` | scripts/session-stats/sync.py:657-1133 | The same holds after every history of syncs that end on a newline, for what was read last |
| `SessionTables.SyncDoes` | scripts/session-stats/sync.py:1108-1133 | Which syncs change nothing, which start over and with what, and which write the lines behind the stored offset; what was seen of the file is stored |
| `SessionTables.SecondLookSkips` | scripts/session-stats/sync.py:1108-1133 | A second look at an unchanged file changes nothing |
| `LongestRepeat.IsMeaningful` | scripts/session-stats/sync.py:521-522 | The trimmed line has four characters exactly when two characters that are no white space stand three or more places apart |
| `LongestRepeat.Extend` | scripts/session-stats/sync.py:516-518 | The inner loop finds the full non-overlapping extension of a pair |
| `LongestRepeat.FindLongestRepeat` | scripts/session-stats/sync.py:507-526 | The result is the first pair in scan order of maximal length among all repeats that are long and meaningful enough, and none exactly when there is none |
| `ChangelogText.RenderedHeading` | scripts/fix-changelogs.ts:104-115 | A heading rendered for a category title is recognised and read back as that title |
| `ChangelogText.ContentRoundTrip` | scripts/fix-changelogs.ts:125-131 | Lines joined and ended by a newline are split back into the same lines |
| `ChangelogText.AnyBreakRoundTrip` | scripts/fix-changelogs.ts:125-131 | Whichever of the three line breaks a file uses, its lines are read |
| `ChangelogText.ReleaseHeadingIff` | scripts/fix-changelogs.ts:100-112 | A line heads a release with a title if and only if it begins with that title, not empty and without a closing bracket, in brackets behind two hash marks |
| `ChangelogText.CategoryHeadingIff` | scripts/fix-changelogs.ts:104-115 | A line heads a category with a title if and only if it is three hash marks, white space, the title and white space |
| `ChangelogText.ListItemIff` | scripts/fix-changelogs.ts:117-119 | A list item is a dash and a blank behind some white space |
| `Cutting.CutUnique` | scripts/fix-changelogs.ts:137-200 | There is one way to cut lines into a lead and blocks that start at their heads |
| `Cutting.CutLines` | scripts/fix-changelogs.ts:150-163 | The index-driven parse loop computes that cut |
| `ChangelogDocument.TrimBlankLines` | scripts/fix-changelogs.ts:202-208 | The two index loops drop exactly the blank lines at both ends |
| `ChangelogDocument.TrimUnique` | scripts/fix-changelogs.ts:202-208 | Only one list between blank padding starts and ends with text |
| `ChangelogDocument.ParseChangelog` | scripts/fix-changelogs.ts:137-166 | The parser returns the document cut at release headings and, inside them, at category headings |
| `ChangelogDocument.ParseReleaseSection` | scripts/fix-changelogs.ts:168-200 | A section is its leading lines and its categories |
| `ChangelogDocument.RenderedIsParsed` | scripts/fix-changelogs.ts:502-529 | Parsing a rendered changelog gives back the same sections, up to blank padding and line numbers |
| `ChangelogDocument.ParsedIsRereadable` | scripts/fix-changelogs.ts:137-200 | Rendering and re-parsing what was parsed from any text loses only padding and numbers |
| `ChangelogItems.CompactAdjacentListSpacing` | scripts/fix-changelogs.ts:359-377 | The spacing pass, item by item, computes the compacted lines |
| `ChangelogItems.CompactFacts` | scripts/fix-changelogs.ts:359-377 | Compacting keeps every item and every line of text, and is idempotent |
| `ChangelogItems.CompactIs` | scripts/fix-changelogs.ts:369-376 | Blank lines between items go exactly when nothing stands in front of the first item |
| `ChangelogItems.KeysOfFlatten` | scripts/fix-changelogs.ts:234-264 | Items written one after the other are parsed as the same items |
| `NumberedItems.ParseItems` | scripts/fix-changelogs.ts:234-264 | Every item with its first and last line number and its trimmed lines |
| `NumberedItems.RemovalIsExact` | scripts/fix-changelogs.ts:266-274 | Removing the line ranges of some items removes exactly those items, wherever they stand |
| `ReleasedDuplicates.CollectReleasedItemKeys` | scripts/fix-changelogs.ts:289-301 | The keys of all items under released headings, and no others |
| `ReleasedDuplicates.DropUnreleasedDuplicates` | scripts/fix-changelogs.ts:310-329 | Only the first Unreleased section changes, and it loses exactly the items whose keys are released or historical |
| `ReleaseDrops.DropIs` | scripts/fix-changelogs.ts:310-329 | Read off the releases before and after: only the first Unreleased section changes; its categories keep the lines before the first item and, in order, the items whose text is in no released section and in no history; a category that then holds nothing goes |
| `ChangelogConverge.DropKeys` | scripts/fix-changelogs.ts:321-327 | After dropping, the items are those whose key is not released |
| `Promotion.TakeItems` | scripts/fix-changelogs.ts:546-550 | Promotable items leave a category; the others stay as they were, and no text is lost |
| `Promotion.AppendAddsKey` | scripts/fix-changelogs.ts:218-232 | Appending an item to a category adds that item and changes no other |
| `Promotion.SubsectionHasItem` | scripts/fix-changelogs.ts:280-287 | Found exactly when an item with the same trimmed lines is there |
| `Promotion.PutItems` | scripts/fix-changelogs.ts:553-559 | The target holds the items it had, in order, behind them every given item that it did not have, once and in order, and no other text |
| `Boards.BoardStep` | scripts/fix-changelogs.ts:331-352 | Batches of items put into a section one after the other: an old category keeps its place, the last of its title gains what came under that title; a new one is there exactly for a title that had none, in the order in which the titles came up |
| `PromotionRun.EnsureTarget` | scripts/fix-changelogs.ts:331-352 | A section and category to promote into exist afterwards; a new Unreleased section goes in front and nothing else changes |
| `PromotionRun.PromoteSubsection` | scripts/fix-changelogs.ts:545-560 | One category: its promotable items move, the section list may grow at the front, other released sections are untouched |
| `PromotionLoop.Promote` | scripts/fix-changelogs.ts:542-561 | The whole loop, with the list growing under the iteration: every released section keeps all but its promotable items, the first Unreleased section, or a new one in front, gains them under their titles, in order and without repeats, and nothing else changes |
| `PromotionLoop.PickedArePromotable` | scripts/fix-changelogs.ts:546-547 | The items that leave a category are those that start on a promotable line, in order |
| `PromotionLoop.PromotedIsSpent` | scripts/fix-changelogs.ts:542-561 | No released section holds a promotable item afterwards |
| `ChangelogFixer.NormalizeSection` | scripts/fix-changelogs.ts:379-419 | Titles are merged, empty ones removed, Unreleased categories ordered; the counters count the merged and the empty ones |
| `ReleaseOrder.MergingIs` | scripts/fix-changelogs.ts:387-410 | One category for every title with text, in the order in which the titles come up, holding the joined texts of that title |
| `Sorting.SortIsStable` | scripts/fix-changelogs.ts:449-455 | The library sort gives the one arrangement that is in order and keeps ties as they stood |
| `ReleaseOrder.SortedCategoriesStand` | scripts/fix-changelogs.ts:354-414 | Categories stand as Breaking Changes, Added, Changed, Fixed, Removed, then all others, ties in their old order |
| `ReleaseOrder.SortedReleasesStand` | scripts/fix-changelogs.ts:438-455 | Unreleased sections come first, in their old order; of two released ones the one with the larger number at the first difference, missing parts being zero; equal versions keep their order |
| `ReleaseOrder.FinishedStands` | scripts/fix-changelogs.ts:563-570 | How the sections stand that are written: each normalised, all of them in that order |
| `ChangelogFixer.RenderChangelog` | scripts/fix-changelogs.ts:502-529 | The output loop writes the rendered text |
| `ChangelogLayout.RenderIsParagraphs` | scripts/fix-changelogs.ts:502-529 | The text is the prefix, each heading, and the text under each, as paragraphs with one empty line between any two, and a line break at the end |
| `ChangelogConverge.VersionsOrder` | scripts/fix-changelogs.ts:438-447 | Comparing numeric version titles is a consistent order, missing parts counting as zero |
| `ChangelogConverge.SortOnce` | scripts/fix-changelogs.ts:449-455 | Sorting releases a second time changes nothing |
| `ChangelogConverge.TidyFinishes` | scripts/fix-changelogs.ts:531-571 | One pass over a changelog without repeated titles leaves nothing to drop, merge, compact or sort |
| `ChangelogPasses.FixedIsReread` | scripts/fix-changelogs.ts:536-572 | The output of a pass is read back as what the pass made |
| `ChangelogOnePass.OnePassIff` | scripts/fix-changelogs.ts:531-580 | For every file and any historical keys: one pass reaches the fixed point if and only if no join of equal titles leaves a blank line before an item in text that starts with one, and none turns an unreleased item into a released one |
| `ChangelogOnePass.NormalizedSettlesIff` | scripts/fix-changelogs.ts:379-419 | Normalising a release leaves nothing to merge, order or compact if and only if no join of its categories leaves such a blank line |
| `ChangelogOnePass.CompactFixedIff` | scripts/fix-changelogs.ts:359-377 | The spacing pass changes trimmed lines if and only if they start with an item and hold a blank line in front of another |
| `ChangelogOnePass.KeysOfAppend` | scripts/fix-changelogs.ts:218-232 | What joining two texts does to their items: they add up, unless the second starts with text, which then runs on in the last item of the first |
| `ChangelogPasses.OnePassSuffices` | scripts/fix-changelogs.ts:531-580 | For a file in which no section repeats a category title with text under it, a second pass changes nothing |
| `ChangelogPasses.TwoPassesSuffice` | scripts/fix-changelogs.ts:531-580 | For every file and any historical keys, a third pass changes nothing |
| `ChangelogOnePass.MergingNeedsAnotherPass` | scripts/fix-changelogs.ts:218-232 | Concrete file: merging leaves a blank line between two items, and the second pass, which removes it, changes the file |
| `ChangelogOnePass.MergingMakesDuplicate` | scripts/fix-changelogs.ts:303-329 | Concrete file: merging makes an unreleased item equal to a released one, and the second pass, which drops it, changes the file |
| `ChangelogConservation.DropKeepsText` | scripts/fix-changelogs.ts:303-329 | Without historical keys, what is dropped is still in a released section |
| `ChangelogConservation.FixChangelogContent` | scripts/fix-changelogs.ts:531-580 | The whole fixer: what is dropped, what is promoted, how the releases then stand, and the paragraphs that are written, each in terms of the sections before and after; with nothing promotable it is one pass of the fixed-point theorems; without historical keys it loses no non-blank line below a heading and adds none |
| `DiffLines.ReadDiffHolds` | scripts/fix-changelogs.ts:593-657 | Which additions, removals and new headings are read, straight from the lines: the file named last, the hunk counted from its header, and for an addition its line in the new file |
| `DiffPairing.SameItemIff` | scripts/fix-changelogs.ts:121-123 | An addition and a removal are of one item when the file is the same and the text but for white space around it |
| `DiffPairing.PairUp` | scripts/fix-changelogs.ts:670-677 | Greedy pairing pairs exactly the earliest additions and the earliest removals of every item |
| `DiffPairing.PairsAreMinimum` | scripts/fix-changelogs.ts:659-677 | Per path and item text, the number of pairs is the smaller of the numbers of additions and removals |
| `DiffPairing.Filter` | scripts/fix-changelogs.ts:679-702 | An unpaired addition survives exactly when as many unpaired additions of its hunk came before it as the hunk has unpaired removals, and the hunk adds no release heading |
| `DiffPairing.SurvivorCount` | scripts/fix-changelogs.ts:686-702 | Per hunk, unpaired additions less unpaired removals survive, if that is positive, and none beside a new release heading |
| `DiffPairing.CollectPromotable` | scripts/fix-changelogs.ts:593-705 | The lines returned are exactly those of the additions that are new, by path: unpaired, in a hunk without a new release heading, and past the rewrites of the hunk |
| `DiffPairing.PairingIsUnique` | scripts/fix-changelogs.ts:659-677 | The pairing is determined by the diff alone |
| `Intervals.CanonicalIsUnique` | scripts/session-stats/optimize_read_config.py:157-168 | A set of lines has one sorted list of separated intervals |
| `Intervals.Merge` | scripts/session-stats/optimize_read_config.py:157-168 | The batch merge returns the canonical list of the lines of its input |
| `Intervals.Contained` | scripts/session-stats/optimize_read_config.py:171-175 | True exactly when one interval of the list holds the range |
| `Intervals.InsideIsCoverage` | scripts/session-stats/read_optimizer.py:299-306 | On separated lists, lying inside one interval is the same as every line being covered |
| `Intervals.IsCovered` | scripts/session-stats/read_optimizer.py:299-306 | With its early exit, true exactly when every line of the target is covered |
| `Intervals.AddInterval` | scripts/session-stats/read_optimizer.py:309-328 | Inserting keeps the list separated and adds exactly the lines of the new interval |
| `Intervals.AddAll` | scripts/session-stats/read_optimizer.py:309-328 | Adding intervals one after another gives the canonical list of all of them |
| `Intervals.NormalizeRanges` | crates/pi-ast/src/block.rs:150-168 | Drops invalid ranges and returns the canonical list of the rest, with saturating arithmetic at the top of 32 bits |
| `Intervals.IsVisible` | crates/pi-ast/src/block.rs:170-182 | The binary search agrees with membership in the ranges |
| `Intervals.EnginesAgree` | crates/pi-ast/src/block.rs:150-168 | Whatever engine and whatever order: lists for the same valid intervals are the same list |
| `PairReplay.EffectiveReturned` | scripts/session-stats/optimize_read_config.py:342-374 | Exactly which lines a simulated call returns: its first in any case, and every later one that is asked for, is in the file, and fits the limits on lines and bytes together with those before it |
| `PairReplay.Subtract` | scripts/session-stats/optimize_read_config.py:178-194 | The pieces are ascending and cover exactly the lines of the range that the list does not |
| `PairReplay.ChunksFacts` | scripts/session-stats/optimize_read_config.py:394-405 | Chunks are ascending, cover the range, obey the cap, all but the last fill it, and there are exactly ceil(length / cap) of them |
| `PairReplay.ChunkRange` | scripts/session-stats/optimize_read_config.py:394-405 | The loop ends and returns those chunks |
| `PairReplay.Fold` | scripts/session-stats/optimize_read_config.py:408-438 | First phase: a call is charged exactly when it would return a line that none before it would; then for each of its lines, at the reduced rate for a summary, and for the round trip |
| `PairReplay.PerCallIff` | scripts/session-stats/optimize_read_config.py:394-398 | So many lines fit one call exactly when they are within the cap on lines and, if more than one, within the bytes |
| `PairReplay.Shortfall` | scripts/session-stats/optimize_read_config.py:440-447 | The lines observed but not delivered, as ascending intervals that do not touch |
| `PairReplay.Fill` | scripts/session-stats/optimize_read_config.py:445-456 | Second phase: disjoint chunks that cover exactly the gaps, each as large as one call may be unless its gap ends there, and their cost |
| `PairReplay.ReplayPair` | scripts/session-stats/optimize_read_config.py:408-456 | Straight from the calls: each is charged exactly when it brings a new line; every line observed that no call returns is in one chunk, and no other line is; each chunk is as large as fits; the tokens are those of the charged calls and of the missing lines, and a round trip for every call |
| `ReadReplay.Delivered` | scripts/session-stats/read_optimizer.py:269-296 | Exactly which lines come back: those from the first requested, less the padding before, to the last, with the padding behind, as far as the cap reaches |
| `ReadReplay.ReplayGroup` | scripts/session-stats/read_optimizer.py:392-467 | After the first call, a bounded call is skipped exactly when every line it requests was delivered by earlier paid calls of its group |
| `ReadReplay.FirstCallSuffices` | scripts/session-stats/read_optimizer.py:455-464 | If the first delivered interval covers every later bounded request, every later bounded call is skipped |
| `ReadReplay.VerdictsAreUnique` | scripts/session-stats/read_optimizer.py:404-428 | The verdicts are determined by the calls alone |
| `ReadReplay.Replay` | scripts/session-stats/read_optimizer.py:374-487 | Each counter is the sum over the groups that it names, of the calls that cost or are skipped |
| `ReadReplay.AllCounted` | scripts/session-stats/read_optimizer.py:374-487 | Calls that cost and calls that are skipped add up to all calls |
| `Utf8.FromUtf8` | crates/pi-ast/src/ops.rs:330-331 | Accepts exactly the well-formed UTF-8 of sections 3 and 4 of RFC 3629 |
| `Utf8.CharsAreScalars` | crates/pi-ast/src/ops.rs:330-331 | The well-formed characters are the encodings of the scalar values, by the table of section 3 of RFC 3629 |
| `Utf8.BoundaryIff` | crates/pi-ast/src/ops.rs:332-332 | A boundary is where a valid text can be cut into two valid texts |
| `ApplyEdits.ScanOverlaps` | crates/pi-ast/src/ops.rs:314-322 | The scan with a running end finds exactly the lists with an overlap |
| `ApplyEdits.Apply` | crates/pi-ast/src/ops.rs:297-335 | The in-place right-to-left splice computes the specified result, with its four ways to fail |
| `ApplyEdits.OnlyTheSetMatters` | crates/pi-ast/src/ops.rs:297-313 | The result depends on the set of edits alone, not on order or duplicates |
| `ApplyEdits.ScanFindsCollisions` | crates/pi-ast/src/ops.rs:314-322 | On sorted edits without duplicates, neighbours suffice to find any two that overlap |
| `ApplyEdits.BeforeIsPrecedes` | crates/pi-ast/src/ops.rs:299-304 | The sort compares position, then length, then the inserted bytes at their first difference |
| `ApplyEdits.ResultMeaning` | crates/pi-ast/src/ops.rs:297-335 | It fails exactly when two distinct edits overlap, one ends past the original content, or one is not UTF-8 on character boundaries, the last such edit deciding between the two; otherwise the output is valid UTF-8, the gaps and insertions from left to right, insertions at one place by their bytes |
| `BlockBoundaries.CollectBoundaries` | crates/pi-ast/src/block.rs:187-216 | The walk restores the cursor and adds exactly the off-window ends of multi-line named nodes below the root with one visible end |
| `BlockBoundaries.EnclosingBoundaries` | crates/pi-ast/src/block.rs:234-261 | The whole query: the lines are exactly the endpoints no valid given range shows, of multi-line named nodes below the root whose other endpoint one shows |
| `BlockBoundaries.Climb` | crates/pi-ast/src/block.rs:102-114 | The climb stops at an ancestor that starts on the row and whose parent is the root or starts elsewhere |
| `BlockBoundaries.ClimbIsOutermost` | crates/pi-ast/src/block.rs:102-104 | In a tree of nested spans, no ancestor further out, other than the root, starts on the row |
| `UnionFind.UnionFind.constructor` | scripts/cleanup-scan.ts:176-177 | Every integer starts as its own class |
| `UnionFind.UnionFind.Find` | scripts/cleanup-scan.ts:178-185 | Ends, returns the root, points the argument at it, and changes no class |
| `UnionFind.UnionFind.Union` | scripts/cleanup-scan.ts:186-190 | Exactly the two classes become one; the parent map stays acyclic |
| `UnionFind.SameRootIffLinked` | scripts/cleanup-scan.ts:176-191 | Two integers share a root exactly when the united pairs link them |
| `CloneClusters.Windows` | scripts/cleanup-scan.ts:197-214 | Every window of every file once, with its hash |
| `CloneClusters.TextTellsLines` | scripts/cleanup-scan.ts:201-206 | The hashed texts of two windows are the same exactly when their lines are |
| `CloneClusters.Clusters` | scripts/cleanup-scan.ts:215-235 | Every matched window is in exactly one cluster, and two are in one cluster exactly when equal hashes and adjacent matched windows connect them, given fewer than 2^24 windows per file |
| `CloneClusters.RootsAreComponents` | scripts/cleanup-scan.ts:215-229 | Sharing a root is being in one component |
| `CloneRegions.Sweep` | scripts/cleanup-scan.ts:253-268 | The sweep over sorted window starts returns the canonical intervals of the lines of the windows |
| `CloneRegions.RegionsOf` | scripts/cleanup-scan.ts:238-269 | A cluster's regions: in every file, the separated runs of its windows' lines, with their source lines and their total |
| `CloneRegions.OneRegion` | scripts/cleanup-scan.ts:238-269 | Every window of a cluster lies whole in exactly one of its regions |
| `CloneRegions.RegionsDisjointOnLines` | scripts/cleanup-scan.ts:256-260 | Regions of one file share no source line |
| `CloneRegions.TwinsShareCluster` | scripts/cleanup-scan.ts:217-223 | Windows of equal hash end up in one cluster |
| `CloneRegions.DetectClones` | scripts/cleanup-scan.ts:194-274 | The clusters are swept one by one, and the clones of two regions or more are reported, largest first |
| `CloneRegions.ReportMeaning` | scripts/cleanup-scan.ts:194-274 | What a report holds: every clone is what one component of "equal hash or adjacent matched windows" covers, in two or more separated runs; every such component is there once; no clone has more significant lines than one before it |
| `ExportClosure.Resolve` | scripts/cleanup-scan.ts:277-284 | A specifier denotes the scanned file of that path, failing that the one with the ending added, failing both the index file |
| `ExportClosure.RootIff` | scripts/cleanup-scan.ts:301-312 | An entry exposes a file exactly when its key holds no star and its target is a scanned file, written with the ending |
| `ExportClosure.Drain` | scripts/cleanup-scan.ts:315-334 | The worklist ends with everything taken whose importers were taken |
| `ExportClosure.ComputePublicSurface` | scripts/cleanup-scan.ts:291-337 | Public files are exactly those reachable from explicit entries through `export *`; public names exactly those such files re-export by name |
| `WorkerPool.TestRun.constructor` | scripts/ci-test-ts.ts:749-753 | Every worker starts on a command, or leaves when there are fewer commands |
| `WorkerPool.TestRun.AttemptEnded` | scripts/ci-test-ts.ts:838-881 | What a worker does without interruption when its attempt ends |
| `WorkerPool.TurnKeepsInv` | scripts/ci-test-ts.ts:838-881 | Every turn keeps: each command waits, is run by exactly one worker on the right attempt, or is settled; the tallies match the history |
| `WorkerPool.RunsAreBounded` | scripts/ci-test-ts.ts:850-856 | No interleaving makes more than three attempts of any command, nor more than three per command in all |
| `WorkerPool.QuietMeansSettled` | scripts/ci-test-ts.ts:838-885 | When no attempt is under way the queue is empty, all commands are counted as completed and every one has exactly one verdict, its earlier attempts all crashes, at most two, and a crash itself only behind two |
| `WorkerPool.FailuresAreBadVerdicts` | scripts/ci-test-ts.ts:878-880 | In every reachable state, the failures are exactly the commands whose verdict was a nonzero exit or a timeout, with exit code and retries, each once |
| `WorkerPool.BudgetedParallel` | scripts/ci-test-ts.ts:551-554 | The largest width up to the one asked for of which a pool fits the budget, and at least one |
| `WorkerPool.LogIsTheRun` | scripts/ci-test-ts.ts:838-881 | The history holds, in order, the command and result of every attempt that ended |
| `WorkerPool.ApplyChunkBudget` | scripts/ci-test-ts.ts:575-587 | A command without a width is returned as it was; one with a width keeps its arguments, and behind them gets the largest width up to it of which the pool fits, at least one, and the time limit |
| `WorkerPool.BudgetedPasses` | scripts/ci-test-ts.ts:579-583 | The process is told the width that was granted |
| `WorkerPool.LiveWidthIsBudgeted` | scripts/ci-test-ts.ts:575-587 | In every state of every run the widths in the arguments of live processes sum to at most max(pool width, 2 * max(1, cores)), given arguments that name no width of their own |
| `EditBoundary.LineSpans` | scripts/session-stats/harmony_backtest.py:323-335 | The lines and their end positions, under all line terminators of the language |
| `EditBoundary.SpansSplit` | scripts/session-stats/harmony_backtest.py:323-335 | Cutting a text at a line end cuts its list of lines |
| `EditBoundary.StepMoves` | scripts/session-stats/harmony_backtest.py:498-627 | A line either is completed, with no insert left lacking payload, or leaves the end of the prefix where it was |
| `EditBoundary.ParseEditBoundary` | scripts/session-stats/harmony_backtest.py:472-640 | The loop with its break computes the fold over lines; texts that start with dashes and have no section go to the older parser |
| `EditPrefix.ParsedPrefix` | scripts/session-stats/harmony_backtest.py:472-640 | What the parser returns, over lines and patterns alone: the prefix ends before the first line that does not fit, and before an insert that then lacks payload; the sections are those of its headers, each with the operations, payload and deleted lines below it |
| `EditPrefix.PrefixIsExact` | scripts/session-stats/harmony_backtest.py:472-640 | For every text there is such a line, or the end: which lines fit a new or a legacy section decides the prefix |
| `EditPrefix.FittingIsOne` | scripts/session-stats/harmony_backtest.py:472-640 | There is only one such line |
| `EditBoundary.LongestCompletePrefix` | scripts/session-stats/harmony_backtest.py:472-640 | The end is 0 or a line end; parsing just the prefix consumes all of it, and it never ends in an insert lacking payload; no longer run of whole lines is consumed |
| `EditBoundary.AppendingNeverLosesLines` | scripts/session-stats/harmony_backtest.py:498-627 | Appending to text that ends on a line end never lowers the end |

## Left out

- InliningPreservesCall: strict mode only; the purity tables and the textual substitution of arguments in default mode are not modelled, nor are call sites in brace-less positions and re-indentation.
- CollectCandidates: what the analysis reads off a declaration (exported, asynchronous, generic, a name filter) is a given set of eligible functions; references are calls, since functions are not values here.
- RoundsKeepMeaning: only the bodies of functions are rewritten; calls among the module's own statements are covered one by one by `InliningPreservesCall`.
- Parameters of `catch` clauses, which a block may not declare again either.
- Calls through a parameter or a local variable: a called name stands for a primitive or a function of the file.
- Classes, `this`, generators, getters, loops and nested functions in the inlined code: the analysis rejects most of them.
- AnySplitEqualsRebuild: lines torn by a read are excluded (`LineCountAddsIff` says when that matters), and so are logs that are rewritten in place; modification time and stored size are not compared.
- JSON decoding, token counts, table row identifiers, and lines that abort the parser altogether: a line decodes to the rows it contributes.
- `parse_hashline_input`: a row of an edit section is an opaque text.
- FixChangelogContent: sections are values, so the identity of section objects is not modelled, only the positions the loop visits; the summary counters other than those of one section are not modelled.
- Titles that are not dotted numbers: the comparison would not be an order, and the sort of the host language leaves the result open.
- History recovery, baseline refs and command lines of the changelog fixer.
- CollectPromotable: the text is given as lines, and item keys are pairs of path and text rather than one joined string; the index of removals by key is a search.
- ReplayPair: exact reals for token costs, which the program keeps in floating point.
- Replay: calls are counted, and the token and truncation estimates are not modelled.
- `pareto`, parameter sweeps, plots and report printing.
- Apply: error messages; a position off a character boundary is the outcome `Panics`.
- `quote_bare_metavars` and pattern compilation.
- EnclosingBoundaries: syntax trees are given, with first and last content lines as fields; parse errors, unknown languages and empty sources return early in the program and are not modelled.
- Clusters: hash collisions are clones here as they are in the program.
- Comment and string normalisation of source lines before hashing.
- ComputePublicSurface: reading package files; entries are given with their resolved string target.
- QuietMeansSettled: a spawn that throws instead of ending would end the run and is not modelled; output draining and the watchdog's timing are part of an attempt's result.
- LiveWidthIsBudgeted: arguments that name a width of their own are excluded; the runner is given them without one (scripts/ci-test-ts.ts:24).
- The sequential path of the test runner.
- ParseEditBoundary: the older `---` diff parser is not part of this model.
- FindLongestRepeat: the minimum length is a natural number.
