# SongSeek: a model of its stateful cores

SongSeek is a music library service. This project models nine of its cores in
Dafny and proves what they promise.

**The management script language.** A hand-written lexer with line and column
tracking, a recursive-descent expression parser with depth, width and token
limits, a naming-template splitter, an indentation-free block parser and an
eager evaluator on a step and output budget. `Texts` and `ScriptSyntax` hold the
data; `ScriptLexer`, `ScriptParser`, `ScriptCompiler`, `ScriptFunctions`,
`ScriptEvaluator`, `ScriptTemplate` and `ScriptBlocks` the code, each loop a
method tied to a function; `ScriptSpelling`, `ScriptGrammar` and `ScriptLayout`
say independently what is accepted; `ScriptPrinter` and `ScriptProgramPrinter`
print; `ScriptLines` says what does not matter in a program's text, and
`ScriptFunctionLaws` what every function of the language answers. The lexer, the parser, the compiler, the splitter and the block parser are
each proved to accept exactly what these descriptions allow, printing is inverted
by compiling, and the evaluator refines a meaning without a budget, in both
directions.

**The automatic upgrade.** `UpgradeMachine` is a step machine over the files the
upgrade keeps: the live database with its marker, the live settings, backups
with manifests, the working copy, the state file and the admission token files.
One step is one effect of the starting program, one effect of the application
it supervises, a write by the user while nothing runs, or a crash. A replaced
file can stay half written and a state write can land, not land, land and still
be reported as failed, or leave the file unreadable. `UpgradeOrder` is the
invariant of every run: the order of replacements and the admission handshake.
`UpgradeSafety` is the invariant of clean runs, those without one of three state
writes, about the data to protect, and `UpgradeGuarantees` is what follows for
whole runs. `UpgradeProgress` is where runs arrive: at the new library when
nothing fails, and back at the old one when an effect does.

**Smaller cores.** `SsePublisher` (snapshot, then deltas), `AudioDbSweep` (the
resumable cursor), `BlobStore` (content-addressed files and their ledger),
`StagedReplacement` (the offline replacement commands), `SnapshotCompaction`
(batches of redundant artwork), `CoverMemoryLru` (the byte-bounded cache) and
`CoverDiskCache` (greedy eviction).

What is outside the code becomes an argument. Hashing is equality of contents,
except where the blob store compares hashes, which is an uninterpreted function.
A crash or a failing effect is a choice of the environment: an event, a number
of effects the process lives through, or an outcome for each effect.

## What does not hold

The code was modelled as it is. In these places it keeps less than its comments
or its design say, and the exact condition is proved.

- Three state writes of the upgrade leave a point at which a crash is not recovered: a
  record of an installed promotion that becomes unreadable; a `completed` record that lands
  and is reported as failed, unless the originals can be put back in one step; and an
  admission record that becomes unreadable. No other step does
  (`UpgradeGuarantees.SafetyExact`). Without a crash the first two are made good
  (`UpgradeGuarantees.FailedInstallIsUndone`); the third leaves the promoted pair live
  without a record (`UpgradeGuarantees.TornCommitStays`).
- When the `migrating` record lands and is reported as failed, the backup it names is
  dropped. If dropping it succeeds, every later start is refused, although nothing was
  changed (`UpgradeGuarantees.OrphanedIsRefused`, `UpgradeGuarantees.RecoveryExact`).
- The library query drops undecodable rows after its limit, so that a full page can
  look like the last one and the sweep completes early
  (`AudioDbSweep.AudioDbSweep.Cycle`, `AudioDbSweep.SweepCompletesEarly`).
- A slow event stream converges to the newest message, not to the state of the channel:
  a drained last word on an event type is missed unless it repeats what was said before
  (`SsePublisher.FollowerExact`, `SsePublisher.SlowReaderMisses`).
- A cleanup looks at the first old objects in directory order, whether they have a row or
  not. An orphaned object behind as many registered ones as there is room for is never
  removed, although nothing else is (`BlobStore.OrphanIsStarved`); an object goes exactly
  when it is among those first ones and has no row
  (`BlobStore.LibraryManagementBlobStore.Cleanup`, `BlobStore.FirstOfExact`).
- A cover above the byte bound empties the memory cache (`CoverMemoryLru.NewestSurvives`).
- Adding content again does not restart the grace period of its ledger row
  (`BlobStore.AddingAgainDoesNotProtect`).
- A recovery command keeps the source's last data whenever the source was not started
  again since the capture; repeating an unrecorded one drops what the source wrote in
  between (`StagedReplacement.Replacement.Rollback`,
  `StagedReplacement.Replacement.ResumeSource`, `StagedReplacement.RepeatedRollbackDropsWrites`,
  `StagedReplacement.RepeatedResumeDropsWrites`).

## Model

| member | source | states |
|---|---|---|
| `ScriptLexer.DecodeString` | backend/core/management_script_language.py:206-270 | returns the decoded value, the offset behind the closing quote and the position reached, or the error at the character it names, for both quote styles, two-character escapes and `\u`; the tracked column is the start column plus the offset moved |
| `ScriptLexer.Tokenize` | backend/core/management_script_language.py:273-338 | returns exactly the lexemes of the source and one final `eof`; the line and column it tracks step by step are for every token, and for every error, the closed form counted from the line breaks in front of it |
| `ScriptLexer.LexemeMovesColumn` | backend/core/management_script_language.py:294-329 | a lexeme, or an error inside one, never leaves its line, so its end lies as many columns on as it has characters |
| `ScriptLexer.EscapesExact` | backend/core/management_script_language.py:219-266 | `n`, `r`, `t`, the backslash and the opening quote are the escapes of a literal, with their values, and nothing else is |
| `ScriptLexer.HexDigitsExact` | backend/core/management_script_language.py:243-257 | the hexadecimal digits of a `\u` escape, in either case, by their values |
| `ScriptLexer.MarksExact` | backend/core/management_script_language.py:296-299 | parentheses, comma and brackets are the marks, each with its own token |
| `ScriptSpelling.DecodesSpelledString` | backend/core/management_script_language.py:206-270 | decoding inverts escaping: a quoted literal spelled from raw characters, two-character escapes and `\u` escapes decodes to the values spelled, and ends behind its quote |
| `ScriptSpelling.DecodedStringIsSpelled` | backend/core/management_script_language.py:206-270 | conversely every literal the decoder accepts is such a spelling |
| `ScriptSpelling.LexerExact` | backend/core/management_script_language.py:273-338 | a source is accepted exactly when it is a row of at most 2,048 spelled tokens with blanks between them, digits and identifiers cut off where the next character cannot continue them; the tokens returned are then the ones spelled |
| `ScriptParser.ExpressionParser.Parse` | backend/core/management_script_language.py:351-360 | parses one primary followed by `eof` and agrees, result, error and error position, with the grammar function; it never reads behind the final `eof` |
| `ScriptParser.ExpressionParser.Primary` | backend/core/management_script_language.py:362-414 | moves the position behind the primary it returns, and reports the depth, value and integer errors at the token that causes them |
| `ScriptParser.ExpressionParser.Arguments` | backend/core/management_script_language.py:416-440 | the loop over arguments: at most 100 children, a comma or the closing token after each, the position behind the closing token on return |
| `ScriptParser.ReservedExact` | backend/core/management_script_language.py:391-400 | `true`, `false` and `null` are reserved in any mixture of capitals, with their values, and nothing else is |
| `ScriptGrammar.ParserExact` | backend/core/management_script_language.py:341-440 | a token sequence parses to an expression if and only if it renders, token by token, a tree of that expression with height at most 20 and at most 100 children a node |
| `ScriptGrammar.RenderedTreeUnique` | backend/core/management_script_language.py:341-440 | a token sequence renders at most one tree |
| `ScriptGrammar.NodesAtMostTokens` | backend/core/management_script_language.py:362-440 | a tree has at most as many nodes as tokens |
| `ScriptCompiler.CompileExpression` | backend/core/management_script_language.py:443-487 | length and emptiness checks, lexing, parsing, and the first unknown function or wrong arity in walk order, each with its position |
| `ScriptCompiler.WalkFindsEveryCall` | backend/core/management_script_language.py:464-487 | the check over the walk succeeds exactly when every call at every depth names a safe function with an accepted number of arguments |
| `ScriptCompiler.CompiledIsBounded` | backend/core/management_script_language.py:330-336 | what compiles is callable throughout, keeps the depth and width limits, and has at most 2,048 nodes |
| `ScriptPrinter.ParseErased` | backend/core/management_script_language.py:362-414 | parsing does not depend on token positions: erasing them before or after gives the same tree |
| `ScriptPrinter.CompileExact` | backend/core/management_script_language.py:443-487 | a source compiles to an expression, up to positions, if and only if it spells in any valid way (either quote, any escapes, any blanks) the tokens of a tree of that expression, and source and expression keep the limits |
| `ScriptPrinter.CompileInvertsPrint` | backend/core/management_script_language.py:443-487 | compiling the printed text of an expression, in which only quotes, backslashes and line boundaries are escaped, gives the expression back, up to positions |
| `ScriptFunctions.TableCoversDispatcher` | backend/core/management_script_language.py:815-922 | for every name and argument count the compile-time table admits, the dispatcher reaches an implementation and passes its own arity check; only the three argument errors are left |
| `ScriptFunctions.PathSafeIsSafe` | backend/core/management_script_language.py:891-901 | `path_safe` keeps the length and every character that is valid in a path and leaves no `/`, no `\` and no NUL |
| `ScriptFunctions.ReplaceAtLeftmost` | backend/core/management_script_language.py:843-845 | `replace` puts the new text at the leftmost occurrence and goes on behind it |
| `ScriptFunctions.ReplaceNothing` | backend/core/management_script_language.py:843-845 | and leaves a text without an occurrence as it is |
| `ScriptFunctions.DefaultIsFirst` | backend/core/management_script_language.py:828-830 | `default` gives the first value that is not empty, and null where all are |
| `ScriptFunctions.SlicesMeet` | backend/core/management_script_language.py:846-851 | any index, negative or too large, cuts a value into two slices that make it up |
| `ScriptFunctions.PadKeepsText` | backend/core/management_script_language.py:852-863 | `pad` reaches the width with the fill on the left and the text at the end |
| `ScriptFunctionLaws.DispatcherKeepsTable` | backend/core/management_script_language.py:815-922 | for any name and any arguments: the dispatcher refuses a call for its name or its number of arguments exactly when the compile-time table does, and implements every name of the table |
| `ScriptFunctionLaws.CompilerRefusesSame` | backend/core/management_script_language.py:464-487 | the compiler refuses a call, and for the same reason, exactly when the dispatcher would, whatever the arguments |
| `ScriptFunctionLaws.CallMeans` | backend/core/management_script_language.py:820-827 | a call written in any capitals means the function of that name on the meanings of its arguments |
| `ScriptFunctionLaws.SynonymsAgree` | backend/core/management_script_language.py:828-916 | the nine second names answer what the first ones do, for any arguments |
| `ScriptFunctionLaws.IfChooses` | backend/core/management_script_language.py:831-833 | `if` gives its third argument for null, false, zero and the empty text and list, and its second for everything else |
| `ScriptFunctionLaws.LogicIsChoice` | backend/core/management_script_language.py:905-913 | `not` is `if` between false and true; `all` and `any` hold when every and some argument makes `if` choose its second one |
| `ScriptFunctionLaws.EqualValues` | backend/core/management_script_language.py:834-836 | values are equal when they are the same, and across kinds only 1 and true, 0 and false are |
| `ScriptFunctionLaws.ContainsExactly` | backend/core/management_script_language.py:837-842 | a text contains what occurs at some place of it, a list what is one of its items |
| `ScriptFunctionLaws.EmptyValues` | backend/core/management_script_language.py:914-916 | null, the empty text and the empty list are empty, and zero and false are not |
| `ScriptFunctionLaws.DefaultChooses` | backend/core/management_script_language.py:828-830 | `default` gives the first argument that `is_empty` denies, and null where it denies none |
| `ScriptFunctionLaws.TextsOfValues` | backend/core/management_script_language.py:764-771 | the text of a value: nothing for null, the names of the truth values, decimal digits without leading zeros for numbers, texts themselves |
| `ScriptFunctionLaws.ConcatAppends` | backend/core/management_script_language.py:902-904 | `concat` of two rows of arguments is the text of the first and then that of the second |
| `ScriptFunctionLaws.JoinJoins` | backend/core/management_script_language.py:872-876 | `join` gives nothing for no item and the item for one; for two parts their texts with the separator between them; `; ` is the standard separator, and what is not a list is its text |
| `ScriptFunctionLaws.FirstOfList` | backend/core/management_script_language.py:868-871 | `first` gives the first item of a list that has one and everything else as it is |
| `ScriptFunctionLaws.ReplaceReplaces` | backend/core/management_script_language.py:843-845 | `replace` by name: the leftmost occurrence, and the rest behind it alike; no occurrence, no change |
| `ScriptFunctionLaws.ReplaceOfNothing` | backend/core/management_script_language.py:843-845 | replacing the empty text puts the new one in front of every character and at the end |
| `ScriptFunctionLaws.SliceCuts` | backend/core/management_script_language.py:846-851 | `slice` is the stretch between the places its indices denote, counted from the end when negative and moved inside when too large; empty when they cross |
| `ScriptFunctionLaws.SlicesMeetByName` | backend/core/management_script_language.py:846-851 | at any index two slices make up the text or the list |
| `ScriptFunctionLaws.SliceIndices` | backend/core/management_script_language.py:774-794 | an index is a number or a text that `int` reads, and counts as that number; anything else is refused |
| `ScriptFunctionLaws.PadPads` | backend/core/management_script_language.py:852-863 | `pad` is refused exactly for a width that is no integer or outside 0 to 1024 or a fill that is not one character; else it reaches the width with the fill on the left and the text at the end; zero is the standard fill |
| `ScriptFunctionLaws.MappingsByName` | backend/core/management_script_language.py:864-890 | `lower`, `upper`, `title` and `ascii_fold` each apply their own mapping |
| `ScriptFunctionLaws.SortNameInverts` | backend/core/management_script_language.py:877-883 | `sort_name` moves the first of the three articles the stripped text starts with behind it, after a comma; without one it gives the stripped text |
| `ScriptFunctionLaws.PathSafeByName` | backend/core/management_script_language.py:891-901 | `path_safe` is refused exactly when the replacement is not one character or is a separator or NUL; else the invalid characters are replaced and all others kept |
| `ScriptEvaluator.EvaluationBudget.ConsumeStep` | backend/core/management_script_language.py:136-144 | one step more is charged in any case, and it is an error exactly when 10,000 were charged before |
| `ScriptEvaluator.EvaluationBudget.AccountFor` | backend/core/management_script_language.py:146-189 | succeeds exactly when the value keeps the three limits of a value and the output total stays within its own; the size is charged exactly when the value keeps the limits, and no step is |
| `ScriptEvaluator.AcceptableExact` | backend/core/management_script_language.py:146-189 | an intermediate value is accepted exactly when it is no text or list, a text of at most 8,192 characters without NUL and surrogates, or a list of at most 100 such texts with as many characters in all |
| `ScriptEvaluator.Evaluate` | backend/core/management_script_language.py:925-952 | the value or error returned and the budget left behind are those of the charging semantics, whose meanings `EvaluatorExact` and the laws of `ScriptFunctionLaws` fix |
| `ScriptEvaluator.EvaluateAll` | backend/core/management_script_language.py:936-945 | the children are evaluated from left to right on one budget, up to the first error |
| `ScriptEvaluator.EvaluatorExact` | backend/core/management_script_language.py:815-952 | evaluation succeeds if and only if the expression has a budget-free meaning, every intermediate value keeps the limits, and the node count and the sum of all value sizes fit into the budget; it then returns the meaning and has charged exactly these two totals |
| `ScriptEvaluator.CallableNeverGoesWrong` | backend/core/management_script_language.py:925-952 | a callable expression never raises the unknown-function, arity or not-implemented error, charges at most its node count in steps, and runs out of steps only if that count exceeds what is left |
| `ScriptEvaluator.CompiledNeverGoesWrong` | backend/core/management_script_language.py:443-487 | nothing that compiles can go wrong in that sense, and a fresh budget is never out of steps |
| `ScriptTemplate.CompileNamingTemplate` | backend/core/management_script_language.py:490-594 | length and emptiness checks and then the segments of the template |
| `ScriptTemplate.SplitTemplate` | backend/core/management_script_language.py:500-594 | the loop's incremental line and column agree at every brace with the closed form used for literals, and the segments are those of the parts |
| `ScriptTemplate.PositionBehind` | backend/core/management_script_language.py:572-577 | moving over a braced body by counting its line breaks and taking what follows the last one reaches the position of the character behind it |
| `ScriptTemplate.TemplateExact` | backend/core/management_script_language.py:490-594 | a template is accepted exactly when it is tiled by non-empty brace-free literals that do not touch and by braced bodies that compile; the segments are those of the tiling, and its parts joined are the template |
| `ScriptTemplate.TilingUnique` | backend/core/management_script_language.py:505-593 | there is at most one such tiling |
| `ScriptTemplate.LegacyExact` | backend/core/management_script_language.py:546-556 | a brace body is a bare variable exactly when it is a name, and a variable with a format exactly when it is a name, a colon and a non-empty format without braces |
| `ScriptTemplate.LegacyWordsExact` | backend/core/management_script_language.py:544-544 | a name is a letter or underscore and then letters, digits and underscores; a format is not empty and holds no brace |
| `ScriptTemplate.LegacyReads` | backend/core/management_script_language.py:534-556 | with any blanks around it such a body is that segment |
| `ScriptBlocks.ParseTaggingBlock` | backend/core/management_script_language.py:597-712 | statements, next line and terminator, or the first error, agree with the block function; the statement limit is met only at an assignment |
| `ScriptBlocks.ParseBranches` | backend/core/management_script_language.py:634-665 | body, optional alternate and `end`, each one level deeper |
| `ScriptBlocks.CompileTaggingProgram` | backend/core/management_script_language.py:715-744 | a program is the block that takes all lines, without a terminator left over, not empty, of at most 500 statements at all depths; what a line is, `ScriptLines` says without the reader |
| `ScriptLayout.ParsesLayout` | backend/core/management_script_language.py:597-712 | lines laid out as a block parse to its statements whatever follows them |
| `ScriptLayout.BlocksExact` | backend/core/management_script_language.py:597-712 | all lines parse to a program with no terminator left over if and only if they can be laid out as it within the nesting and statement limits |
| `ScriptLayout.ProgramExact` | backend/core/management_script_language.py:715-744 | a source compiles to a program if and only if it keeps the source limit and its lines can be laid out as that program, which is not empty and has at most 500 statements at all depths |
| `ScriptProgramPrinter.ParseInvertsPrint` | backend/core/management_script_language.py:597-744 | the printed lines of every program within the limits parse to it, with no terminator left over, whatever one-line texts its expressions are written with |
| `ScriptProgramPrinter.SplitInvertsJoin` | backend/core/management_script_language.py:723-723 | splitting joined lines gives the lines back when none of them holds a line boundary |
| `ScriptProgramPrinter.CompileProgramInvertsPrint` | backend/core/management_script_language.py:715-744 | compiling the printed source of a program, its expressions written with any one-line texts that compile to them, gives every statement, target and expression back in its place, up to positions |
| `ScriptProgramPrinter.CompileInvertsStandardPrint` | backend/core/management_script_language.py:715-744 | the same for the standard printer: clean targets, nesting within the limit and expressions whose printed text keeps the limits are enough |
| `ScriptLines.CompileErased` | backend/core/management_script_language.py:443-487 | a source compiles to the same expression up to positions, or is refused for the same reason, wherever it stands |
| `ScriptLines.IndentedReads` | backend/core/management_script_language.py:606-617 | blanks on either side of any line do not change what it reads as, on whatever line of the source it stands; they only move its column by the blanks in front |
| `ScriptLines.SkipExact` | backend/core/management_script_language.py:610-615 | exactly the lines of blanks and the lines whose first other character is `#` are passed over |
| `ScriptLines.AssignLine` | backend/core/management_script_language.py:678-702 | `set` and `append` with any blanks between their parts: target and expression stand around the first `=`, and the expression is compiled as if it began in the column behind it |
| `ScriptLines.IfLineReads` | backend/core/management_script_language.py:618-640 | `if` with any blanks around its condition: the condition is compiled as if it began where its text first occurs in the line |
| `ScriptLines.DeleteLine` | backend/core/management_script_language.py:667-677 | `delete`: what stands behind the word, stripped, is the target, or an invalid one |
| `ScriptLines.TargetExact` | backend/core/management_script_language.py:24-24 | a target starts with a letter or an underscore and goes on with letters, digits, blanks and `_.:/-` |
| `ScriptLines.SplitCuts` | backend/core/management_script_language.py:723-723 | a source is cut behind each of the ten boundary characters, a return and a newline behind it together; the last line may have no end, and no empty line is behind a last end |
| `ScriptLines.LinesDressed` | backend/core/management_script_language.py:597-712 | two rows of lines that differ in indentation, trailing blanks, blank lines and comments parse alike from corresponding lines on: the same statements up to positions and the same end, or an error of the same kind |
| `ScriptLines.DressedCompiles` | backend/core/management_script_language.py:715-744 | so such sources compile to the same program, or are refused for the same reason, whatever it is |
| `ScriptLines.CompileInvertsDressedPrint` | backend/core/management_script_language.py:715-744 | the round trip with any indentation and with blank and comment lines among the printed ones |
| `UpgradeSafety.NextKeeps` | backend/maintenance/automatic_upgrade.py:708-872 | in states of clean runs: every step of parent, child, user and crash keeps the invariant, the fatal writes apart |
| `UpgradeSafety.PromoteDatabaseKeeps` | backend/maintenance/automatic_upgrade.py:473-482 | in states of clean runs: with a torn, failed or finished replacement of the database the backup named by the record still holds the originals |
| `UpgradeSafety.RestoreDatabaseKeeps` | backend/maintenance/automatic_upgrade.py:429-445 | the same while the backup is written back |
| `UpgradeSafety.RecordCompletedKeeps` | backend/maintenance/automatic_upgrade.py:1012-1026 | in states of clean runs: however the write of the admission record ends, an unreadable record apart, the invariant holds |
| `UpgradeOrder.NextOrders` | backend/maintenance/automatic_upgrade.py:429-482 | every step of parent, child, user and crash, the fatal writes included, keeps the order of replacements and the handshake |
| `UpgradeGuarantees.SafetyExact` | backend/maintenance/automatic_upgrade.py:708-872 | after every clean run the originals are live, or the promoted pair over which a `completed` record landed, or the record names an intact backup equal to the originals in a stage that startup restores; and after a clean run exactly the fatal writes lead to a point at which a crash is not recovered, even when from then on every write of the record lands and returns or raises without landing |
| `UpgradeGuarantees.CrashIsFinal` | backend/maintenance/automatic_upgrade.py:485-530 | a crash at such a point: the next start restores nothing, and the pair that is neither the originals nor a completed promotion stays live |
| `UpgradeGuarantees.FailedInstallIsUndone` | backend/maintenance/automatic_upgrade.py:823-863 | in states of clean runs: without a crash a failed write of the record that ends a promotion is made good, whichever way it fails: the handler puts the originals back and records the failure |
| `UpgradeGuarantees.TornCommitStays` | backend/maintenance/automatic_upgrade.py:1058-1066 | in states of clean runs: an admission record left unreadable is not made good: the promoted pair stays live without a record, and nothing names its backup |
| `UpgradeGuarantees.FatalWritesHappen` | backend/maintenance/automatic_upgrade.py:809-822 | each of the three fatal writes ends a concrete clean run, so the condition is not empty |
| `UpgradeGuarantees.TruthMoves` | backend/maintenance/automatic_upgrade.py:1012-1026 | in every run the data to protect changes only by a write of the user or of an admitted target, or when `completed` lands over the whole promoted pair; so in a clean run, which is safe throughout, no post-admission write is rolled back |
| `UpgradeGuarantees.AcceptedMoves` | backend/maintenance/automatic_upgrade.py:805-822 | in every run the promoted pair counts as kept only once a `completed` record over it has landed, even when that is reported as failed |
| `UpgradeGuarantees.CompletedIsPromoted` | backend/maintenance/automatic_upgrade.py:805-822 | in every run a record becomes `completed` only over the promoted pair with its marker |
| `UpgradeGuarantees.AdmittedOnlyWhenCompleted` | backend/maintenance/automatic_upgrade.py:969-990 | in every run a child started with a token passes admission only when the stage is already `completed`; in a clean run the live pair is then the one to protect |
| `UpgradeProgress.UpgradeCompletes` | backend/maintenance/automatic_upgrade.py:708-872 | from every state with a whole old pair live, or to be restored, and no earlier failure of this image on it: a start in which nothing fails ends with the migrated pair live, recorded as completed and protected, the old pair in a backup that can be loaded and, with admission, the target serving |
| `UpgradeProgress.AttemptCompletes` | backend/maintenance/automatic_upgrade.py:763-872 | the same from the check on, for every attempt |
| `UpgradeProgress.AdmissionCompletes` | backend/maintenance/automatic_upgrade.py:1240-1262 | when the commit and the token behind it are written, the waiting target reads the token, drops both files and serves over the committed pair |
| `UpgradeProgress.WaitingIsAdmitted` | backend/maintenance/automatic_upgrade.py:969-990 | in every run, whatever failed before: a waiting target is admitted by the next commit that is written |
| `UpgradeProgress.MarkedStarts` | backend/maintenance/automatic_upgrade.py:1437-1467 | a marked pair is not migrated again: with admission the application is started without a token and serves, without it nothing is done |
| `UpgradeProgress.FailedPreparationLeavesNothing` | backend/maintenance/automatic_upgrade.py:769-790 | an attempt that cannot be prepared leaves the record, the live pair and every other backup as they were |
| `UpgradeProgress.LoadableOnceManifested` | backend/maintenance/automatic_upgrade.py:256-327 | a backup can be loaded exactly from the write of its manifest on, if that landed |
| `UpgradeProgress.LandedTokensCount` | backend/maintenance/automatic_upgrade.py:1029-1031 | a validation or admission file counts once it is there, even when its write was reported as failed |
| `UpgradeProgress.FailedMigrationIsRecorded` | backend/maintenance/automatic_upgrade.py:823-850 | a migration that fails changes nothing and is recorded with the image and the data |
| `UpgradeProgress.FailedIsRefused` | backend/maintenance/automatic_upgrade.py:734-761 | after a failed attempt and any writes by the user a start makes a new attempt exactly when the image or the pair is another one, and changes nothing otherwise |
| `UpgradeProgress.RollbackIsRetried` | backend/maintenance/automatic_upgrade.py:719-730 | after a completed upgrade a start over an unmarked pair makes a new attempt exactly when it is the pair in the backup and holds a database; any other is refused and left as it is |
| `UpgradeProgress.FailedPromotionIsUndone` | backend/maintenance/automatic_upgrade.py:823-850 | a replacement that fails, or a migrated database without the marker, is taken back: the originals are live and the failure is recorded |
| `UpgradeProgress.FailedSpawnIsUndone` | backend/maintenance/automatic_upgrade.py:1158-1171 | so is a promotion whose target cannot be started |
| `UpgradeProgress.UnvalidatedIsUndone` | backend/maintenance/automatic_upgrade.py:1233-1270 | and one whose target times out, ends, or cannot write that it is validated |
| `UpgradeProgress.FailedCommitIsDecided` | backend/maintenance/automatic_upgrade.py:1251-1287 | a failed commit is decided by what landed: a record that stayed takes the promotion back, a `completed` one keeps the promoted pair and only stops the target |
| `UpgradeProgress.ServedStays` | backend/maintenance/automatic_upgrade.py:1289-1356 | once committed, a target that ends or is stopped takes nothing back |
| `UpgradeGuarantees.RestoresAlone` | backend/maintenance/automatic_upgrade.py:1058-1084 | in every run the backup is written back only while no target process is alive, and only while the stage is not `completed` unless a `completed` record landed and was reported as failed; in a clean run it equals the data to protect, and without such a report it is the one the record names |
| `UpgradeGuarantees.MarkerMeansPromotedSettings` | backend/maintenance/automatic_upgrade.py:429-482 | in every run, unreadable records included: at every crash point of a promotion or a restore, and as long as the record is in a restore stage, a live database with the marker has the promoted settings beside it, and a crash and the next start find both like that |
| `UpgradeGuarantees.RecoveryExact` | backend/maintenance/automatic_upgrade.py:485-530 | a start in which no effect fails recovers exactly when the recorded backup can be loaded: the originals are live, and the record says whether anything had been replaced; otherwise it is refused and changes nothing but the image and mode of the start |
| `UpgradeGuarantees.RecoveryRepeats` | backend/maintenance/automatic_upgrade.py:485-530 | in states of clean runs: through any number of failed or crashed recoveries the backup and the aim stay the same, and whenever a recovery ends that data is live |
| `UpgradeGuarantees.CrashesRecover` | backend/maintenance/automatic_upgrade.py:485-530 | after any orderly run and a crash in a restore stage, one start without failing effects ends with the originals live |
| `UpgradeGuarantees.OrphanedIsRefused` | backend/maintenance/automatic_upgrade.py:773-790 | in states of clean runs: if the `migrating` record lands and is reported as failed, its backup is dropped and every later start is refused, with the data unchanged |
| `SsePublisher.SsePublisher.Publish` | backend/infrastructure/sse_publisher.py:43-58 | assigns the retained message, offers the message to every queue of the channel and to no other, and keeps what every subscriber is promised |
| `SsePublisher.SsePublisher.Offer` | backend/infrastructure/sse_publisher.py:60-75 | a full queue is drained first, so the newest message is always accepted |
| `SsePublisher.SsePublisher.Subscribe` | backend/infrastructure/sse_publisher.py:77-83 | a new queue starts empty, with the retained messages as its snapshot |
| `SsePublisher.SsePublisher.Next` | backend/infrastructure/sse_publisher.py:84-90 | gives the snapshot in order, then the queue in order, and a keepalive when there is nothing |
| `SsePublisher.SsePublisher.Close` | backend/infrastructure/sse_publisher.py:91-98 | takes one queue out, and the channel's list when it was the last |
| `SsePublisher.SsePublisher.SubscriberCount` | backend/infrastructure/sse_publisher.py:100-102 | the number of open queues of a channel |
| `SsePublisher.KnownPut` | backend/infrastructure/sse_publisher.py:45-45 | assigning one event type in an insertion-ordered dictionary is the same as reading one more message |
| `SsePublisher.SnapshotThenDeltas` | backend/infrastructure/sse_publisher.py:77-90 | for a subscriber whose queue was never full, what it was given, the rest of its snapshot and its queue say together exactly what the channel said |
| `SsePublisher.FollowerExact` | backend/infrastructure/sse_publisher.py:60-90 | in every run, overflow included: what a subscriber was given, the rest of its snapshot and its queue tell the state of the channel if and only if every drained message that is the last word on its event type repeats what the subscriber was last told about that type |
| `SsePublisher.FollowsOffered` | backend/infrastructure/sse_publisher.py:60-75 | an offer keeps the received messages an in-order part of the publications, ending with the last one, in at most 200 places |
| `SsePublisher.EverySubscriber` | backend/infrastructure/sse_publisher.py:43-98 | for every open queue in every reachable state, overflow included: at most 200 messages, an in-order part of the publications with the last one never missing, and the state of the channel under the exact condition of `FollowerExact` |
| `SsePublisher.OverflowExact` | backend/infrastructure/sse_publisher.py:60-75 | for one drain: it takes nothing from what the reader would know at that moment exactly when every message dropped is of the new message's event type or repeats what was known before |
| `SsePublisher.OverflowCanLose` | backend/infrastructure/sse_publisher.py:60-75 | for one drain: the only message of an event type can be among those dropped |
| `SsePublisher.SlowReaderMisses` | backend/infrastructure/sse_publisher.py:43-90 | runs of the bus: a subscriber whose queue overflows behind one terminal event never learns of it, whatever messages of other types are published and read afterwards, in any order, although the bus retains it; the comment that a slow consumer always converges holds for the newest message only |
| `CoverMemoryLru.CoverMemoryLru.Get` | backend/repositories/coverart_repository.py:175-181 | a hit returns the last value accepted for the key and makes it the most recent; a miss changes nothing |
| `CoverMemoryLru.CoverMemoryLru.GetHash` | backend/repositories/coverart_repository.py:183-187 | the hash of the last accepted content |
| `CoverMemoryLru.CoverMemoryLru.Set` | backend/repositories/coverart_repository.py:189-217 | empty content is ignored; otherwise the contents are the longest most recently used part, the new entry included, that keeps both bounds |
| `CoverMemoryLru.CoverMemoryLru.Shrink` | backend/repositories/coverart_repository.py:211-216 | the eviction loop stops at the longest recent part within both bounds, with the byte total exact |
| `CoverMemoryLru.CoverMemoryLru.Evict` | backend/repositories/coverart_repository.py:219-223 | takes out exactly the key |
| `CoverMemoryLru.LongestFitUnique` | backend/repositories/coverart_repository.py:211-216 | there is one longest recent part |
| `CoverMemoryLru.NewestSurvives` | backend/repositories/coverart_repository.py:189-217 | the entry just set survives exactly when it fits by itself; an oversized cover empties the cache |
| `CoverMemoryLru.WithoutHolds` | backend/repositories/coverart_repository.py:196-198 | popping a key takes off exactly the bytes its entry had |
| `CoverMemoryLru.TouchedByUse` | backend/repositories/coverart_repository.py:207-208 | moving a key to the end keeps the order of last use and the keys distinct |
| `CoverDiskCache.CoverDiskCache.EnforceSizeLimit` | backend/repositories/coverart_disk_cache.py:253-311 | does nothing without a limit or within the interval; otherwise removes exactly the victims with their side files and returns their total size |
| `CoverDiskCache.CoverDiskCache.Scan` | backend/repositories/coverart_disk_cache.py:269-291 | the total of all files and the unmonitored ones with their last access, listed names that are gone skipped |
| `CoverDiskCache.CoverDiskCache.RemoveUntil` | backend/repositories/coverart_disk_cache.py:302-309 | removes in order until enough is freed, the last removal included |
| `CoverDiskCache.SortedIsStable` | backend/repositories/coverart_disk_cache.py:300-300 | the order is by last access, ties in listing order, and nothing is lost |
| `CoverDiskCache.EvictionExact` | backend/repositories/coverart_disk_cache.py:253-311 | the victims are the first unmonitored files by last access; monitored files stay; without the last victim the total would be over the limit; afterwards it is within the limit unless only monitored files are left |
| `CoverDiskCache.EvictionByMetadata` | backend/repositories/coverart_disk_cache.py:253-311 | by the metadata files: what goes was used least recently among the files not marked as monitored, by the recorded access or, without one, the creation, `null` and unreadable metadata counting as never; each goes with its metadata and side file, and all others stay |
| `AudioDbSweep.AudioDbSweep.Cycle` | backend/core/tasks.py:792-927 | looks up exactly a front part of the page and attempts exactly a front part of its uncached items, each when allowed to go on; what counts as covered is what it found cached or attempted since the cursor was last empty, nothing else; every row before the persisted cursor stays covered; an uninterrupted cycle resets or advances the cursor to the last item of its page; and a completing cycle has covered every well-formed row if and only if none lies behind the page its query read |
| `AudioDbSweep.AudioDbSweep.Inspect` | backend/core/tasks.py:819-833 | looks up the items in order until it has to stop; the cached ones become covered, and the uncached ones, in order, are those that need a fetch |
| `AudioDbSweep.AudioDbSweep.Fetch` | backend/core/tasks.py:846-918 | attempts the items in order until it has to stop, and exactly these become covered; the cursor is saved behind every fiftieth, and never passes an item that was not covered |
| `AudioDbSweep.AudioDbSweep.FetchPage` | backend/core/tasks.py:842-927 | the sweep is complete exactly when everything needed was fetched and the whole page, shorter than 5,000, was inspected; a page that stops short leaves the cursor at the last attempted fetch, and one that dies at the last full interval |
| `AudioDbSweep.AudioDbSweep.Finish` | backend/core/tasks.py:920-927 | completion is recorded only for a page that was inspected and fetched to its end |
| `AudioDbSweep.FetchedCovers` | backend/core/tasks.py:912-915 | every row up to a fetched item is covered |
| `AudioDbSweep.DecodableIsCovered` | backend/infrastructure/persistence/library_db.py:638-690 | with only decodable rows a completing page is the last one |
| `AudioDbSweep.SweepCompletesEarly` | backend/infrastructure/persistence/library_db.py:672-688 | one undecodable row among the first 5,000 lets an uninterrupted first cycle record completion with a well-formed row behind them uncovered |
| `BlobStore.LibraryManagementBlobStore.Publish` | backend/infrastructure/library_management_blob_store.py:207-269 | links the staged bytes only under a matching hash and length, never changes a published file, and leaves no staging file unless it dies |
| `BlobStore.LibraryManagementBlobStore.Register` | backend/infrastructure/persistence/native_library_store.py:16764-16818 | one row a hash; only the promotion to an image and its enrichment change it, and its age never changes |
| `BlobStore.RegisteringTwice` | backend/infrastructure/persistence/native_library_store.py:16788-16816 | registering the same blob again changes nothing, an image stays an image, and known image metadata is kept |
| `BlobStore.MetadataGiven` | backend/infrastructure/library_management_blob_store.py:74-75 | metadata that are given are kept, and an image without any gets those of its signature |
| `BlobStore.ImageSignatures` | backend/infrastructure/library_management_blob_store.py:24-41 | a content starts with at most one of the image signatures; each gives its own type, and a content with none gives no metadata |
| `BlobStore.LibraryManagementBlobStore.AddBytes` | backend/infrastructure/library_management_blob_store.py:68-87 | a returned row has its object with that hash and length, whatever died before; it raises only for staged bytes that do not match, a foreign file under the hash, or an exhausted revision |
| `BlobStore.LibraryManagementBlobStore.AddFile` | backend/infrastructure/library_management_blob_store.py:89-109 | the same promises for a file, and a new row is the one its bytes would get |
| `BlobStore.LibraryManagementBlobStore.ReadBytes` | backend/infrastructure/library_management_blob_store.py:138-143 | a registered blob can always be read and has the registered hash and length |
| `BlobStore.LibraryManagementBlobStore.Cleanup` | backend/infrastructure/library_management_blob_store.py:152-185 | what goes and what stays, both ways: the rows that go are the first old unreferenced rows listed that are unreferenced at their turn, their objects with them; the objects that go are the first old ones listed that have no row; with room for all of them every one goes; under the limit every old staging file among the entries read is gone; the three counts are the numbers of things that went; no removal exceeds the limit, dangles a row or touches what is young or referenced all along |
| `BlobStore.FirstOfExact` | backend/infrastructure/library_management_blob_store.py:298-303 | a listed name is a candidate exactly when it qualifies and fewer than the limit that qualify are listed before it; it has that place among the candidates, whose number is the smaller of the two |
| `BlobStore.OrphanIsStarved` | backend/infrastructure/library_management_blob_store.py:166-178 | an old object without a row behind as many old objects with rows as there is room for is never taken up, although nothing is removed |
| `BlobStore.OrphanStarves` | backend/infrastructure/library_management_blob_store.py:166-178 | there is such a store |
| `BlobStore.LibraryManagementBlobStore.RemoveUnreferenced` | backend/infrastructure/library_management_blob_store.py:298-315 | a row goes only if it was old and unreferenced when listed and unreferenced when its own turn came; its object goes after it |
| `BlobStore.LibraryManagementBlobStore.DeleteBlob` | backend/infrastructure/persistence/native_library_store.py:16880-16909 | refuses a missing or a referenced row and changes nothing then; otherwise the row goes first and the object second, so that dying in between leaves a file without a row and never a row without a file |
| `BlobStore.LibraryManagementBlobStore.RemoveUnledgered` | backend/infrastructure/library_management_blob_store.py:170-181 | an old object goes only if the ledger, asked again, has no row for it |
| `BlobStore.LibraryManagementBlobStore.RemoveOldTemporaries` | backend/infrastructure/library_management_blob_store.py:317-340 | old regular staging files go, within the limit and four times as many entries read |
| `BlobStore.HeaderTellsImage` | backend/infrastructure/library_management_blob_store.py:237-249 | the first twelve bytes kept while copying tell the same image type as the whole content |
| `BlobStore.DroppedKeeps` | backend/infrastructure/library_management_blob_store.py:298-315 | deleting a row first and its object second never leaves a row without an object |
| `BlobStore.AddingAgainDoesNotProtect` | backend/infrastructure/persistence/native_library_store.py:16764-16784 | adding content whose row already exists does not restart its grace period: the row stays a cleanup candidate exactly when it was one |
| `StagedReplacement.Replacement.Build` | backend/maintenance/feedback_fixes.py:764-841 | ends in `built` only with both images pinned, the source running all the while; it reports success only when every effect of the command worked |
| `StagedReplacement.Replacement.Stop` | backend/maintenance/feedback_fixes.py:517-568 | ends in `stopped` with nothing running; it reports success only when every effect of the command worked |
| `StagedReplacement.Replacement.Capture` | backend/maintenance/feedback_fixes.py:571-635 | a manifest that becomes complete holds the data the source last wrote; it reports success only when every effect of the command worked |
| `StagedReplacement.Replacement.Migrate` | backend/maintenance/feedback_fixes.py:727-761 | changes data only in a stage that can roll back, with a complete manifest and nothing running; it reports success only when every effect of the command worked |
| `StagedReplacement.Replacement.StartTarget` | backend/maintenance/feedback_fixes.py:857-913 | starts the target only in `migrated`, with nothing running, on data that its validation accepts as migrated; data that a cut-off or finished restore left behind is refused; it reports success only when every effect of the command worked |
| `StagedReplacement.Replacement.ResumeSource` | backend/maintenance/feedback_fixes.py:965-1021 | enabled in `built`, `stopped` and `capturing`; succeeds when no effect fails; the source runs again on the captured data, or on its own data if no manifest is complete; that is its last data whenever it was not started again since the capture, and otherwise it drops what `since` lists |
| `StagedReplacement.Replacement.Rollback` | backend/maintenance/feedback_fixes.py:1038-1084 | enabled in `captured`, `migrated` and `target_started`; succeeds when no effect fails; the prior image runs on the captured data; that is the source's last data whenever it was not started again since the capture, and otherwise it drops what `since` lists |
| `StagedReplacement.EveryStageRecovers` | backend/maintenance/feedback_fixes.py:142-148 | in every reachable state past `built` exactly one recovery command is enabled and its image is pinned; foreign data and a running target exist only where rollback is enabled over a complete manifest |
| `StagedReplacement.RepeatedRollbackDropsWrites` | backend/maintenance/feedback_fixes.py:1038-1084 | a rollback that started the source but was not recorded has to be repeated, and the repetition drops what the source wrote in between |
| `StagedReplacement.RepeatedResumeDropsWrites` | backend/maintenance/feedback_fixes.py:965-1021 | the same for a capture that was cut off behind its complete manifest and is given up twice |
| `SnapshotCompaction.SnapshotCopy.LoadCandidates` | backend/maintenance/library_management_snapshot_compaction.py:106-140 | the first rows with inline artwork over the three tables in order, or the error for a row among them without a blob |
| `SnapshotCompaction.CandidatesExact` | backend/maintenance/library_management_snapshot_compaction.py:106-140 | the candidates are exactly the rows with artwork of their own, table by table and in key order, each once |
| `SnapshotCompaction.SnapshotCopy.VerifyCandidates` | backend/maintenance/library_management_snapshot_compaction.py:217-232 | succeeds exactly when every row repeats its blob's artwork, and counts the bytes that clearing frees |
| `SnapshotCompaction.SnapshotCopy.ClearCandidates` | backend/maintenance/library_management_snapshot_compaction.py:235-260 | clears every row of the batch, or none when one of them has changed since |
| `SnapshotCompaction.SnapshotCopy.HasCandidates` | backend/maintenance/library_management_snapshot_compaction.py:263-271 | whether any row of any table has artwork of its own left |
| `SnapshotCompaction.SnapshotCopy.Compact` | backend/maintenance/library_management_snapshot_compaction.py:274-314 | without interference a batch succeeds exactly when its rows are copies and, at the end, the database is sound; it clears min(batch, remaining) rows, reports the real shrinkage and loses no artwork; after an error nothing is cleared, a failed integrity check apart; when another connection wrote in between, the whole batch is cleared in what that left, or, if one of its rows changed, nothing is |
| `SnapshotCompaction.BatchCleared` | backend/maintenance/library_management_snapshot_compaction.py:235-260 | clearing the first candidates leaves exactly the others |
| `SnapshotCompaction.ClearingIsLossless` | backend/maintenance/library_management_snapshot_compaction.py:217-260 | the artwork recoverable from every row stays the same and the inline volume shrinks by the bytes counted |
| `SnapshotCompaction.BatchesFinish` | backend/maintenance/library_management_snapshot_compaction.py:274-314 | after any number of batches whose candidates are copies exactly these candidates are gone and all artwork is recoverable |
| `SnapshotCompaction.EnoughBatchesFinish` | backend/maintenance/library_management_snapshot_compaction.py:274-314 | ceil(n / batch) batches leave no candidate, and fewer leave some |

## Left out

- ScriptLexer.Tokenize: digits are ASCII; `str.isdigit` also admits characters that `int` then rejects. Identifiers follow the ASCII pattern of the source.
- ScriptFunctions.TableCoversDispatcher: `lower`, `upper`, `title`, `casefold`, the ASCII folding and `int(text)` are uninterpreted functions, so that nothing is said about what they return. Function names are folded as ASCII.
- ScriptFunctions.PathSafeIsSafe: a replacement such as `:` is accepted by the source, so other invalid characters may remain.
- ScriptParser.ExpressionParser.Primary: an integer literal of more than 4,300 digits is refused with an error of its own, as CPython's `int` does; printing so long a number from a variable is not limited.
- ScriptBlocks.ParseTaggingBlock: the columns inside a statement's expression are not always right: the source takes the first textual occurrence of a condition and does not skip blanks after `=`. `ScriptLines.IfLineReads` and `ScriptLines.AssignLine` say where they are counted from.
- ScriptTemplate.TemplateExact: no claim is made for columns inside a braced body that begins with a line break; the source compiles it with the line of its brace.
- ScriptEvaluator.Evaluate: expression kinds are constructors, so the invalid-node error cannot be expressed; the caches on the compile functions are not modelled.
- UpgradeSafety.NextKeeps: assumes that nothing else writes the data while the record is in a restore stage, that a target changes nothing before its admission, that tokens and backup names are never reused, and that the parent's death ends the target with it.
- UpgradeGuarantees.SafetyExact: the upgrade is a step machine over a value, not methods that change files in place, because a crash can come between any two effects.
- UpgradeGuarantees.CrashesRecover: for runs without the fatal writes and without a `migrating` record that lands and is reported as failed.
- The migration of the working copy is a result chosen by the environment; the removal of a settings file generated during a failed first start, working-copy and token-file clean-up, progress files, deadlines, signals and messages are not modelled. Token files left behind are a harder case than removed ones.
- SsePublisher.SsePublisher.Offer: the branch for a queue that refuses a message after it was drained cannot be reached and is not modelled; the lock makes each operation one step.
- AudioDbSweep.AudioDbSweep.Cycle: the catalog is fixed during a sweep and rows are numbered in key order; cursors in the older format without an entity type, and the download of image bytes, are not modelled. The second bound on the items to refresh can never be met before the first.
- BlobStore.LibraryManagementBlobStore.Cleanup: what the bounded directory scans read is an argument; symbolic-link checks, path validation and fsync are not modelled.
- BlobStore.LibraryManagementBlobStore.ReadBytes: `register_existing` and `resolve_verified_path` make the same check and are not modelled.
- StagedReplacement.Replacement.Build: image builds, container inspection, identity checks and health checks are effects that work or stop the command; the pins are not removed by others.
- StagedReplacement.Replacement.Capture: what a manifest holds and how it is restored in place are contracts: complete or not, restored whole or cut off.
- StagedReplacement.Replacement.StartTarget: the validation of the target database is a contract: it may refuse anything, and it accepts migrated data only.
- SnapshotCompaction.SnapshotCopy.VerifyCandidates: the path, kind, length, hash and decoding checks of a blob are one function that gives its artwork or nothing; the artwork is ASCII JSON, so that its length is its size in bytes.
- CoverMemoryLru.CoverMemoryLru.Get: the lock makes each operation one step.
- CoverDiskCache.CoverDiskCache.EnforceSizeLimit: the interval is checked once; files written while it runs are not modelled.
- The HTTP clients, image fetch chains, web wiring, command-line parsing and the remaining background tasks are input and output around these cores.
