# Verified model of the emulator

This project models the parts of the Snowflake emulator in which a mistake would be hard to
see, and proves what they promise. Dafny checks it with

    dafny verify dfyconfig.toml

Code that the emulator writes as loops over changing state is written here as methods, each
proved equal to a function of its inputs or of the old state. What that function means is then
proved in lemmas, for all inputs, all runs and all interleavings.

| files | what they are about |
|---|---|
| `Text`, `Cases`, `Scanner` | character classes; texts that differ only in case; literals, comments and dollar bodies as regions of text |
| `Statements` | the console's splitter of a worksheet into statements |
| `Lexical`, `LexicalNames`, `Markers`, `MarkerTrees`, `TranslatorRuns` | the SQL translator: renaming calls, expanding marked calls, and the two together |
| `Script`, `ScriptParser`, `ScriptPrinting`, `ScriptRoundTrip`, `ScriptWhole` | the parser of stored procedures, and a printer whose output it reads back |
| `ScriptCases`, `ScriptSpelling`, `ScriptGaps` | keywords in any spelling, and statements with any spaces and comments between them |
| `Interpreter`, `InterpreterRuns`, `InterpreterTraces` | the interpreter of stored procedures over an arbitrary database, and a grammar of what it may do |
| `Merge`, `MergeRefinement`, `MergePrecedence` | MERGE carried out as UPDATE, DELETE and INSERT |
| `Warehouse`, `WarehouseSafety`, `WarehouseFairness`, `WarehouseAnswers` | admission of statements to a warehouse |
| `Streams`, `StreamSafety`, `StreamTurns`, `StreamChains`, `StreamOverlaps` | append-only streams and the statements that consume them |
| `Decimals`, `DecimalTexts`, `DecimalMeaning`, `DecimalDisplay` | reading, comparing and showing decimal numbers in the console |
| `RoleGraph`, `Identity`, `IdentitySafety`, `IdentityGrants` | roles, grants and authorization |
| `Sessions`, `SessionSafety`, `SessionLives` | sessions in two indexes and a store |
| `Ctes`, `CteTexts`, `Classifier`, `CteQueries` | reading a WITH clause, and the text a statement is classified by |
| `History`, `HistoryListing`, `HistorySafety`, `HistoryTold` | running statements, their recorded history and the merged listing |

## What was found not to hold

Each of these is proved, with an input and with the condition under which the promise does hold.

- An NVL2, DATEADD or DATEDIFF call whose text splits at its commas into a number of arguments
  other than three makes the translator run for ever (`MarkerTrees.ForeverIffMiscounted`). Commas
  in literals count, so this happens with three arguments too
  (`TranslatorRuns.TwoArgumentsRunForever`, `TranslatorRuns.CommaInLiteralRunsForever`).
- A marked call with a space before its parenthesis is renamed but not expanded, so the marker is
  left in the text for the database (`TranslatorRuns.MarkerLeftIffSpaced`,
  `TranslatorRuns.SpacedKept`, `TranslatorRuns.SpaceLeavesMarker`).
- So it is when an opening parenthesis in a literal keeps the call's own from closing
  (`TranslatorRuns.UnclosedLeft`, `TranslatorRuns.ParenthesisLeavesMarker`).
- The decomposed MERGE puts a deleted row back when an INSERT clause takes its source row
  (`MergeRefinement.DecomposedIsMerge`, `MergeRefinement.DeletedRowComesBack`).
- Its conditions are put together without parentheses, so with OR at the top level of ON or of a
  condition its statements can change, delete or insert rows they should not
  (`MergePrecedence.StatementIffMisled`, `MergePrecedence.OrInOnStrays`;
  `MergePrecedence.InsertIffAnyway`, `MergePrecedence.OrInConditionInsertsMatched`).
- A row of a stream is consumed twice by statements that overlap
  (`StreamOverlaps.OverlapReadsTwice`, `StreamOverlaps.ConcurrentConsumersReadTwice`), and after a
  statement whose changes are made but whose offset cannot be stored
  (`StreamOverlaps.FailedStoreReadsTwice`); when consumers take turns, in no other case
  (`StreamChains.ChainedIffLevel`, `StreamChains.ExactlyOnceIffLevel`, `StreamChains.ExactlyOnce`).
- A condition that begins with an opening and ends with a closing parenthesis loses both
  (`ScriptWhole.BareConditionIff`, `ScriptWhole.BareSubjectIff`), which does harm exactly when they do not match each other
  (`ScriptWhole.OuterMatchIff`, `ScriptWhole.UnmatchedOuter`).
- Two decimals with exponents that a double cannot hold can compare wrongly
  (`DecimalMeaning.DifferentButEqual`): exactly when the signs do not decide and rounding the
  exponents changes what the powers, and then the digits, decide
  (`DecimalMeaning.ComparisonRightIff`, `DecimalMeaning.ComparisonIsExact`).
- A negative scale is ignored when a decimal is shown (`DecimalDisplay.FormatDenotes`), and from
  10^21 on the point is put into the text of a power of ten (`DecimalDisplay.PowerDenotesIff`,
  `DecimalDisplay.PointInPower`).
- Closing a session with a token that was already replaced reports success and ends nothing
  (`SessionSafety.CloseEndsExactly`, `SessionSafety.StaleTokenCloses`).
- A renewal after the end of the master token takes the session out of memory only, so a restart
  brings it back as long as its row has not expired (`SessionLives.RenewedTooLate`).
- A statement that finds its warehouse suspended is refused when the resume cannot be saved, but
  the warehouse is then active and the next statement gets in
  (`WarehouseAnswers.UnsavedResumeCounts`).
- A status is recorded after the lock is given up, and a recording that fails is only logged. A
  cancelled statement can then be listed as running for good: exactly when another status is being
  recorded as it is cancelled (`HistorySafety.CancelLasts`, `HistorySafety.StartBeingRecorded`), or
  when the recording of the cancellation is lost and the store has a row with another status
  (`HistorySafety.LostCancelLasts`, `HistorySafety.StartRecorded`).
- The comment on `recordedStatements` says that fetching only the limit would crowd out older
  statements. It would not, as long as the store keeps the creation times
  (`HistoryListing.PlainLimitIsEnough`).
- A table expression that is itself named RECURSIVE is taken for the keyword
  (`CteQueries.ExactIffNotRecursive`, `CteQueries.RecursiveIsNoName`).

## Model

| member | source | states |
|---|---|---|
| `Scanner.SkipQuoted` | pkg/query/translator.go:614-626 | the scan of a quoted region ends just past its closing quote, doubled quotes skipped, or at the end of the text |
| `Scanner.SkipBlockComment` | pkg/query/classifier.go:83-99 | nested comments end at the marker that closes the outermost; an unclosed one takes the rest |
| `Scanner.SkipNonCodeAt` | pkg/query/translator.go:588-611 | quoted regions, dollar bodies, line comments and nested block comments are skipped whole; anything else is code |
| `Statements.SplitStatements` | _web/src/statements.ts:19-42 | the loop over the buffer returns the statements of the pieces between separating semicolons |
| `Statements.StatementAt` | _web/src/statements.ts:49-69 | the statement that holds the cursor, else the last one before it, else the first; none only for a blank buffer |
| `Statements.Push` | _web/src/statements.ts:71-82 | records the trimmed piece at its own offsets, and nothing for a blank one |
| `Statements.SplitSpec` | _web/src/statements.ts:1-42 | for every buffer: statements are slices at ordered, disjoint offsets, everything outside them is space or a separating semicolon, and each one splits again into exactly itself |
| `Statements.CutExactlyAtSeparators` | _web/src/statements.ts:24-38 | pieces end at a semicolon exactly when the scan reaches it as code, so no literal, comment or dollar body is cut |
| `Statements.RegionsWhole` | _web/src/statements.ts:88-110 | no position inside a skipped region is ever looked at |
| `Statements.SplitAgain` | _web/src/statements.ts:7-18 | splitting the text of any statement gives that one statement back, wherever it came from |
| `Statements.PiecesTile` | _web/src/statements.ts:19-42 | the pieces and the semicolons between them make up the whole buffer |
| `Statements.CursorStatement` | _web/src/statements.ts:49-69 | which statement the cursor chooses: one that holds it at either end; with none, the last one that ends before it; with none, the first |
| `Lexical.Translator.TranslateFunctionsLexically` | pkg/query/translator.go:504-536 | the rewriting loop computes the specified translation of the text |
| `Lexical.Translator.FunctionRewrites` | pkg/query/translator.go:649-681 | the reporting loop computes the specified list of rewrites |
| `Lexical.CallFollowsAt` | pkg/query/translator.go:557-568 | whether an opening parenthesis comes next, after spaces only |
| `Lexical.IsQualified` | pkg/query/translator.go:572-583 | whether a dot comes before, after spaces only |
| `Lexical.TranslateCommutes` | pkg/query/translator.go:504-536 | tokenizing the output gives the tokens of the input with only the unqualified, called, registered names exchanged: literals, comments and dollar bodies are byte-identical and in order |
| `Lexical.Idempotent` | pkg/query/translator.go:504-553 | translating a translated statement changes nothing |
| `Lexical.RegisteredSafe` | pkg/query/translator.go:43-73 | the registered names are such that no replacement is itself replaced |
| `Lexical.ReportExact` | pkg/query/translator.go:649-681 | a name is reported exactly when some occurrence of it is rewritten |
| `Lexical.ReportOnce` | pkg/query/translator.go:649-681 | each name is reported once, with its replacement |
| `Lexical.ReportEmptyIffUnchanged` | pkg/query/translator.go:636-681 | nothing is reported exactly when translation leaves the text as it is |
| `LexicalNames.NameReplacedIff` | pkg/query/translator.go:504-553 | a name is replaced and reported exactly when its upper-case spelling is in the map, a parenthesis follows after blanks and no dot precedes before blanks; else it is copied |
| `LexicalNames.EverySpelling` | pkg/query/translator.go:541-553 | for every key of the map and every spelling of it, a called name is replaced by what the map has for the key, and reported under the key |
| `LexicalNames.EveryRegisteredSpelling` | pkg/query/translator.go:43-73 | so it is for every registered function |
| `LexicalNames.CaseIsIgnored` | pkg/query/translator.go:504-553 | two statements that differ only in the case of letters are reported alike, and the same of their tokens are replaced by the same texts |
| `LexicalNames.LongerNameKept` | pkg/query/translator.go:529-546 | a longer name that begins with a registered one is copied and not reported |
| `LexicalNames.LowerCaseCall` | pkg/query/preview_test.go:176-180 | SELECT iff(a, 1, 0) becomes SELECT IF(a, 1, 0) |
| `Markers.SplitFunctionArgs` | pkg/query/translator.go:465-490 | splits at commas outside parentheses, quotes not being looked at |
| `Markers.ClosingParen` | pkg/query/translator.go:366-380 | the parenthesis that closes the call, quotes not being looked at |
| `Markers.TransformMarkedFunction` | pkg/query/translator.go:358-388 | returns the expansion of the text, or Forever where the loop comes to a text that its turn leaves as it is |
| `Markers.HandleComplexTransformations` | pkg/query/translator.go:194-231 | the seven passes one after the other give the expansion of all markers |
| `Markers.TurnProgress` | pkg/query/translator.go:358-422 | a turn of the loop leaves the text as it was exactly when the first marked call has the wrong number of arguments, and otherwise makes a measure smaller |
| `MarkerTrees.PassStops` | pkg/query/translator.go:358-388 | one pass over the text of a nest of calls, those of its marker with the right number of arguments, ends at the text of a nest with the same translation and none of its calls |
| `MarkerTrees.ExpansionIsTranslation` | pkg/query/translator.go:194-231 | for every nest of calls with the right numbers of arguments and every order of passes, repeated first-match expansion ends at the text of the recursive translation, with no marker left |
| `MarkerTrees.ForeverIffMiscounted` | pkg/query/translator.go:194-231 | for every nest, the translator's passes run for ever exactly when some NVL2, DATEADD or DATEDIFF call, not inside the arguments that CURRENT_TIMESTAMP or CURRENT_DATE discards, has a number of arguments other than three; otherwise they end at the recursive translation |
| `TranslatorRuns.FlatForever` | pkg/query/translator.go:465-490 | a three-argument call of pieces of text runs for ever exactly when there are not three of them; a comma ends a piece even inside a literal |
| `TranslatorRuns.TwoArgumentsRunForever` | pkg/query/translator.go:220-222 | NVL2(a, b) is marked by the first pass, and the passes of the second never end |
| `TranslatorRuns.CommaInLiteralRunsForever` | pkg/query/translator.go:465-490 | neither do they for NVL2(a, 'a,b', c), which has three arguments |
| `TranslatorRuns.UnclosedLeft` | pkg/query/translator.go:366-382 | a marked call at the start of a text whose parenthesis does not close, parentheses in literals being counted, is left as it is when no call of another marker follows |
| `TranslatorRuns.ParenthesisLeavesMarker` | pkg/query/translator.go:366-382 | NVL2(a, '(', c) ends as __NVL2__(a, '(', c) |
| `TranslatorRuns.NameReplaced` | pkg/query/translator.go:504-536 | wherever a registered name stands unqualified, with any spaces and then a parenthesis after it, the first pass puts its replacement there and goes on after the name |
| `TranslatorRuns.SpacedKept` | pkg/query/translator.go:358-388 | for every nest between the parentheses of a marked call with a space before them, the second pass leaves the marker word and finishes everything inside, or runs for ever if a call inside has the wrong number of arguments |
| `TranslatorRuns.MarkerLeftIffSpaced` | pkg/query/translator.go:360-365 | from the call as written, with a name that is marked and any spaces before the parenthesis: the first pass marks it and keeps the spaces, and both passes together finish it exactly when there are none; else the marker word is left in front of its finished arguments |
| `TranslatorRuns.SpaceLeavesMarker` | pkg/query/translator.go:360-365 | NVL2 (a, b, c) ends as __NVL2__ (a, b, c) |
| `TranslatorRuns.MarkedByName` | pkg/query/translator.go:43-73 | every function that is expanded is replaced by its own marker and no other |
| `TranslatorRuns.ReportedExpansion` | pkg/query/translator.go:683-699 | the preview describes NVL2 and the two casts by what their calls are expanded to |
| `ScriptParsing.ParseProcedureScript` | pkg/query/procedure_scripting.go:68-108 | the parser method returns what the grammar function gives for the text, or its fault |
| `ScriptParsing.ParseProcedureDeclaration` | pkg/query/procedure_scripting.go:129-149 | name, type and optional DEFAULT of one declaration, or the fault |
| `ScriptParsing.ParseProcedureLet` | pkg/query/procedure_scripting.go:226-250 | name, optional type and expression of a LET, or the fault |
| `ScriptParsing.ScriptParser.ParseStatementList` | pkg/query/procedure_scripting.go:151-169 | statements up to the first of the ending words, position advanced past each |
| `ScriptParsing.ScriptParser.ParseOne` | pkg/query/procedure_scripting.go:171-207 | one statement of any kind |
| `ScriptParsing.ScriptParser.ParseIfStatement` | pkg/query/procedure_scripting.go:252-275 | an IF with its branches and END IF |
| `ScriptParsing.ScriptParser.ParseCaseStatement` | pkg/query/procedure_scripting.go:277-309 | a CASE with its branches, ELSE and END CASE |
| `ScriptParsing.ScriptParser.ReadUntilSemicolon` | pkg/query/procedure_scripting.go:311-342 | the text up to the first semicolon outside quotes and parentheses |
| `ScriptParsing.ScriptParser.ReadUntilKeyword` | pkg/query/procedure_scripting.go:344-371 | the text up to the first place outside quotes and parentheses where the word comes next |
| `ScriptParsing.ScriptParser.SkipSpaceAndComments` | pkg/query/procedure_scripting.go:373-387 | past spaces and line comments |
| `ScriptParsing.ScriptParser.PeekKeyword` | pkg/query/procedure_scripting.go:389-402 | whether the word comes next as a whole word, in any case; the position does not move |
| `ScriptParsing.ScriptParser.ReadIdentifier` | pkg/query/procedure_scripting.go:419-430 | the identifier at the position |
| `ScriptParsing.KeywordIndexAtTopLevel` | pkg/query/procedure_scripting.go:448-471 | the first whole word outside quotes and parentheses |
| `ScriptParsing.TopLevelIndexOf` | pkg/query/procedure_scripting.go:477-497 | the first ":=" outside quotes and parentheses |
| `ScriptRoundTrip.StmtRound` | pkg/query/procedure_scripting.go:171-309 | a printed statement, nested to any depth, parses back wherever it stands, and the parser stops right after it |
| `ScriptRoundTrip.ListRound` | pkg/query/procedure_scripting.go:151-169 | a printed list of statements parses back up to the word that ends it |
| `ScriptRoundTrip.BranchesRound` | pkg/query/procedure_scripting.go:277-309 | printed WHEN branches parse back up to ELSE or END |
| `ScriptWhole.DeclarationsRound` | pkg/query/procedure_scripting.go:110-149 | printed declarations parse back |
| `ScriptWhole.ScriptRound` | pkg/query/procedure_scripting.go:68-371 | parsing what is printed for any fitting script gives that script |
| `ScriptWhole.PrintInjective` | pkg/query/procedure_scripting.go:68-371 | two fitting scripts with one printed text are the same script |
| `ScriptSpelling.SpelledRound` | pkg/query/procedure_scripting.go:389-402 | so it does when every occurrence of every keyword is printed in a spelling of its own |
| `ScriptSpelling.LowerCaseScript` | pkg/query/procedure_scripting.go:68-108 | begin, return 1; and end; on lines of their own are a script |
| `ScriptCases.CaseIsIgnored` | pkg/query/procedure_scripting.go:68-108 | two texts that differ only in the case of letters are refused for the same fault, or read as scripts that differ only in the case of letters |
| `ScriptGaps.SpreadRound` | pkg/query/procedure_scripting.go:151-169 | statements with any spaces and line comments between them, and no other difference, parse back as well |
| `ScriptGaps.SpreadScript` | pkg/query/procedure_scripting.go:68-108 | so do whole scripts; anything but spaces and comments after the last semicolon is refused as trailing text |
| `ScriptGaps.StatementsAfterGap` | pkg/query/procedure_scripting.go:373-387 | a list of statements is read the same from the end of any gap of spaces and line comments as from its beginning |
| `ScriptGaps.EndAfterGap` | pkg/query/procedure_scripting.go:252-275 | so is the end of a block |
| `ScriptGaps.DeclarationsAfterGap` | pkg/query/procedure_scripting.go:110-127 | so are the declarations |
| `ScriptGaps.BodyAfterGap` | pkg/query/procedure_scripting.go:79-107 | and so are the body and what follows it |
| `ScriptGaps.SemicolonIsFirst` | pkg/query/procedure_scripting.go:311-342 | a statement runs exactly up to its first semicolon outside literals and parentheses |
| `ScriptGaps.LetByDefault` | pkg/query/procedure_scripting.go:226-250 | LET with DEFAULT reads as LET with := does |
| `ScriptGaps.OuterWithSpaces` | pkg/query/procedure_scripting.go:499-505 | a condition in outer parentheses comes back without them and without the spaces around it, inside and outside |
| `ScriptWhole.EmptyHandlerIsNone` | pkg/query/procedure_scripting.go:92-93 | an EXCEPTION part without statements gives the same script as none |
| `ScriptWhole.BareConditionIff` | pkg/query/procedure_scripting.go:499-505 | a condition of IF written without parentheses comes back as it is exactly when it does not begin with an opening and end with a closing parenthesis |
| `ScriptWhole.BareSubjectIff` | pkg/query/procedure_scripting.go:499-505 | and so does the subject of CASE |
| `ScriptWhole.OuterMatchIff` | pkg/query/procedure_scripting.go:499-505 | of a properly nested condition, what is left without its first and last parenthesis is properly nested exactly when those two match each other |
| `ScriptWhole.UnmatchedOuter` | pkg/query/procedure_scripting.go:499-505 | (a) OR (b) becomes a) OR (b |
| `Interpreters.Interpreter.Execute` | pkg/query/procedure_interpreter.go:52-100 | reply, variables, tables and everything the database is told are those of the specified invocation followed by the clean-up, which runs on every way out |
| `Interpreters.Interpreter.Run` | pkg/query/procedure_interpreter.go:60-99 | arguments, declarations, body and handler in order |
| `Interpreters.Interpreter.ExecuteStatements` | pkg/query/procedure_interpreter.go:102-117 | the loop runs the statements up to the first failure or RETURN and keeps the last result |
| `Interpreters.Interpreter.ExecuteStatement` | pkg/query/procedure_interpreter.go:119-206 | every kind of statement does what the specified semantics says |
| `Interpreters.Interpreter.ExecuteBranches` | pkg/query/procedure_interpreter.go:173-187 | the loop over the branches of a CASE |
| `Interpreters.Interpreter.EvaluateScalar` | pkg/query/procedure_interpreter.go:273-292 | one question to the database for one value; more than one row or column is an error |
| `Interpreters.Interpreter.EvaluateBoolean` | pkg/query/procedure_interpreter.go:258-271 | NULL is false, anything but a boolean is an error |
| `Interpreters.Interpreter.RewriteTemporaryTableReferences` | pkg/query/procedure_interpreter.go:208-246 | a created temporary table is registered once under its physical name; the last known table named in a DROP is reported |
| `Interpreters.Interpreter.CleanupTemporaryTables` | pkg/query/procedure_interpreter.go:248-256 | drops in some order until a drop fails; without a failure the map ends empty |
| `InterpreterRuns.NothingAfterReturn` | pkg/query/procedure_interpreter.go:102-191 | for every body, however nested: nothing happens after the first RETURN or failure, the result is that RETURN's or else the last query's, and the final variables and tables are what the logged events alone make of them |
| `InterpreterRuns.DeadCodeIsDead` | pkg/query/procedure_interpreter.go:102-191 | removing every statement that follows one all of whose paths end changes neither the reply nor anything the database is told |
| `InterpreterRuns.RowCountIsLastChange` | pkg/query/procedure_interpreter.go:139-143 | SQLROWCOUNT is the count of the last successful change, 0 before any, at the end of every invocation and when the handler starts, unless the script assigns to it or an argument has its name |
| `InterpreterRuns.RowCountKept` | pkg/query/procedure_interpreter.go:17-21 | statements that do not assign to SQLROWCOUNT keep it so, however they end |
| `InterpreterRuns.EveryTemporaryIsDropped` | pkg/query/procedure_interpreter.go:53-59 | once the clean-up gets through, every temporary table whose creation any text of the run asked for was dropped later |
| `InterpreterRuns.CaseTakesFirstMatch` | pkg/query/procedure_interpreter.go:173-187 | the first equal branch runs, and only the values up to it are evaluated |
| `InterpreterRuns.CaseWithoutMatch` | pkg/query/procedure_interpreter.go:173-187 | with no equal branch ELSE runs, after all values |
| `InterpreterTraces.RunIsTheTrace` | pkg/query/procedure_interpreter.go:102-206 | a grammar of events and statements allows exactly one sequence of events and one outcome, and every run adds exactly those: which questions are asked, which branch the answers choose, which value is given to which variable |
| `InterpreterTraces.IfFollowsTheAnswer` | pkg/query/procedure_interpreter.go:164-172 | after the answer true the events of an IF are a trace of its THEN branch, after false or NULL of its ELSE branch; after anything else there are none and it fails |
| `InterpreterTraces.InvokeIsATrace` | pkg/query/procedure_interpreter.go:60-99 | the events of an invocation are those of its arguments, then of its declarations, then of its body and handler |
| `InterpreterTraces.NumbersMatch` | pkg/query/procedure_interpreter.go:476-481 | two numbers are one value for CASE exactly when they are equal |
| `InterpreterTraces.TruthMatches` | pkg/query/procedure_interpreter.go:476-481 | a truth value is the text that shows it, in lower case |
| `InterpreterTraces.TablesKnown` | pkg/query/procedure_interpreter.go:208-246 | after a change that was made, the tables known before and the one it creates are known, but for the last known one of those it drops |
| `Merge.MergeProcessor.ExecuteDecomposedMerge` | pkg/query/merge_processor.go:556-600 | the two loops leave the target and the counts of the specified phases; when a statement fails, exactly the clauses before it have been carried out |
| `MergeRefinement.DecomposedIsMerge` | pkg/query/merge_processor.go:556-746 | under the stated conditions the decomposed statement has the effect and the counts of MERGE if and only if no source row both loses all its matches to a DELETE and is one that an INSERT clause takes; it never inserts less |
| `MergeRefinement.AgreesWithoutDelete` | pkg/query/merge_processor.go:556-746 | without a matched DELETE the two are always the same |
| `MergeRefinement.MatchedAgrees` | pkg/query/merge_processor.go:603-697 | the UPDATE and DELETE statements alone leave what MERGE leaves of the matched rows |
| `MergeRefinement.DeletedRowComesBack` | pkg/query/merge_processor.go:666-746 | the smallest such table: one matched row is deleted and comes back from its source row |
| `MergePrecedence.StatementIffMisled` | pkg/query/merge_processor.go:603-697 | with OR at the top level of ON or of the condition, the UPDATE or DELETE of a clause leaves another table or other counts than ON AND condition, each taken as a whole, exactly when for some target row the first source row the text selects is a stray one and either no row is meant or UPDATE would set another value from it |
| `MergePrecedence.InsertIffAnyway` | pkg/query/merge_processor.go:699-746 | the INSERT of a clause adds other rows than meant exactly when some source row is matched and an alternative of the condition after the first holds for it |
| `MergePrecedence.OrInOnStrays` | pkg/query/merge_processor.go:636-652 | a one-row table on which a row is deleted, or updated, though its partner does not meet the condition |
| `MergePrecedence.OrInConditionInsertsMatched` | pkg/query/merge_processor.go:699-746 | a one-row table on which a matched row is inserted again |
| `Warehouses.Manager.CreateWarehouse` | pkg/warehouse/manager.go:106-128 | a new warehouse or the error; the whole new state is that of the specified step |
| `Warehouses.Manager.ResumeWarehouse` | pkg/warehouse/manager.go:151-166 | resumes a suspended warehouse; the whole new state is that of the specified step |
| `Warehouses.Manager.SuspendWarehouse` | pkg/warehouse/manager.go:168-190 | rejects all waiters, and suspends at once or when the last statement ends; the whole new state is that of the specified step |
| `Warehouses.Manager.AlterWarehouse` | pkg/warehouse/manager.go:192-209 | new settings, then admission; the whole new state is that of the specified step |
| `Warehouses.Manager.DropWarehouse` | pkg/warehouse/manager.go:211-228 | only an idle warehouse goes; the whole new state is that of the specified step |
| `Warehouses.Manager.AcquireSlot` | pkg/warehouse/manager.go:230-259 | the first locked section: error, slot or place in the queue; the whole new state is that of the specified step |
| `Warehouses.Manager.CollectAnswer` | pkg/warehouse/manager.go:263-267 | a waiter takes its answer; the whole new state is that of the specified step |
| `Warehouses.Manager.CancelTicket` | pkg/warehouse/manager.go:268-294 | the section after cancellation: the waiter leaves the queue, or gives back the slot it was admitted to meanwhile; the whole new state is that of the specified step |
| `Warehouses.Manager.ReleaseLease` | pkg/warehouse/manager.go:330-341 | a lease is given back once; the whole new state is that of the specified step |
| `Warehouses.Manager.AdmitWaiters` | pkg/warehouse/manager.go:354-365 | lets waiters in from the front while there is room; the whole new state is that of the specified step |
| `Warehouses.Manager.CheckAutoSuspend` | pkg/warehouse/manager.go:297-311 | suspends what has been idle long enough; the whole new state is that of the specified step |
| `Warehouses.CapacityOf` | pkg/warehouse/manager.go:456-463 | 2 to the power of the size's place, 1 for an unknown size |
| `WarehouseSafety.StepKeeps` | pkg/warehouse/manager.go:151-380 | every locked section keeps: Queued is the queue's length, Running is the number of leases and of admitted waiters not yet collected, waiters only where the warehouse is active and full, nothing runs or waits in a suspended one |
| `WarehouseSafety.RunKeeps` | pkg/warehouse/manager.go:151-380 | so does every run, however cancellation and admission race |
| `WarehouseSafety.StartKeeps` | pkg/warehouse/manager.go:83-100 | a manager that starts from stored settings is in such a state |
| `WarehouseAnswers.AcquireAnswers` | pkg/warehouse/manager.go:230-259 | in every state that keeps the invariant a statement is let in exactly when its warehouse exists and is active, or is suspended and may resume, and the warehouse is active afterwards; the three refusals say exactly which of these fails, and change nothing |
| `WarehouseAnswers.AcquireRunsOrWaits` | pkg/warehouse/manager.go:247-259 | a statement that is let in runs at once exactly when nobody waits and fewer run than the capacity |
| `WarehouseAnswers.CreateAnswers` | pkg/warehouse/manager.go:106-128 | a new warehouse is suspended, unused and set as asked; when it is refused nothing changes |
| `WarehouseAnswers.DropAnswers` | pkg/warehouse/manager.go:211-228 | a warehouse in use stays, a dropped one is gone, alone |
| `WarehouseAnswers.ResumeAnswers` | pkg/warehouse/manager.go:151-166 | which warehouses are resumed, and that nothing but state and time change |
| `WarehouseAnswers.SuspendAnswers` | pkg/warehouse/manager.go:168-190 | exactly the waiting tickets of the warehouse are rejected, and it is suspended at once exactly when nobody runs on it |
| `WarehouseAnswers.AlterAnswers` | pkg/warehouse/manager.go:192-209 | the settings asked for hold, state and time stay, and each refusal has its cause |
| `WarehouseAnswers.AutoSuspendAnswers` | pkg/warehouse/manager.go:297-311 | a warehouse is suspended exactly when it is active, unused, and was idle for its time |
| `WarehouseAnswers.EndAnswers` | pkg/warehouse/manager.go:330-365 | the last statement to end on a suspending warehouse suspends it, no other does |
| `WarehouseAnswers.CollectAnswers` | pkg/warehouse/manager.go:263-267 | a waiter that was let in gets its slot, one that was thrown out the refusal, each once |
| `WarehouseAnswers.OnceInAlwaysIn` | pkg/warehouse/manager.go:230-259 | once a statement was let in so is every later one, over every run that neither suspends nor drops the warehouse |
| `WarehouseAnswers.SuspendedRefuses` | pkg/warehouse/manager.go:168-190 | once a warehouse without AUTO_RESUME is suspended every statement is refused, over every run that neither resumes, alters nor drops it |
| `WarehouseAnswers.FirstStatement` | pkg/warehouse/manager.go:237-246 | created with AUTO_RESUME, the first statement runs at once; without it, it is refused until the warehouse is resumed |
| `WarehouseAnswers.UnsavedResumeCounts` | pkg/warehouse/manager.go:237-246 | a resume that cannot be saved refuses the statement, and lets the next one in |
| `WarehouseAnswers.StartAnswers` | pkg/warehouse/manager.go:83-100 | after a start every stored warehouse is suspended, with the settings that were stored |
| `WarehouseAnswers.Capacities` | pkg/warehouse/manager.go:456-463 | the smallest size runs one statement, and each size twice as many as the one before |
| `Text.TrimBlanks` | pkg/warehouse/manager.go:433-435 | trimming takes off exactly the blanks at both ends: space, tab, newline, vertical tab, form feed and carriage return |
| `WarehouseFairness.StepRaisesWithin` | pkg/warehouse/manager.go:252-258 | a step that raises Running ends at or below the capacity |
| `WarehouseFairness.FirstComeFirstServed` | pkg/warehouse/manager.go:354-365 | over every run no later ticket of a warehouse is admitted while an earlier one waits |
| `WarehouseFairness.FastPathOnlyWhenNobodyWaits` | pkg/warehouse/manager.go:252-258 | a newcomer runs at once only when nobody waits for the warehouse |
| `WarehouseFairness.ReleaseAlwaysCounts` | pkg/warehouse/manager.go:330-341 | no live lease is refused by the guards of the release |
| `WarehouseFairness.ExactRelease` | pkg/warehouse/manager.go:343-365 | undisturbed, the waiter at position p is admitted by exactly the (R - C + p + 1)-th release |
| `WarehouseFairness.EnoughReleases` | pkg/warehouse/manager.go:343-365 | cancellations and growth only bring that forward, later arrivals never delay it |
| `Streams.StreamProcessor.RewriteForConsumption` | pkg/query/stream_processor.go:127-177 | the loop freezes, for each stream mentioned, the rows between its offset and the highest row of its source |
| `Streams.StreamProcessor.UpdateStreamOffset` | pkg/metadata/stream_repository.go:122-137 | the stored offset moves forward or not at all |
| `Streams.StreamProcessor.AdvanceOffsets` | pkg/query/stream_processor.go:179-189 | offsets are stored one after the other until one fails |
| `Streams.FreezesAre` | pkg/query/stream_processor.go:139-174 | the interleavable freezing steps, undisturbed, are the program's loop |
| `Streams.AdvancesAre` | pkg/query/stream_processor.go:179-189 | and so are the advancing steps |
| `StreamSafety.StepKeeps` | pkg/query/stream_processor.go:127-189 | every step, in any interleaving, keeps the invariant and lowers no offset |
| `StreamSafety.OffsetsNeverGoDown` | pkg/metadata/stream_repository.go:119-137 | over every run a stream's offset never goes down |
| `StreamSafety.EveryRowWasRead` | pkg/query/executor.go:744-773 | in every reachable state each row at or below the offset lay in the window of a statement that succeeded, and was read by it if it was still there |
| `StreamChains.ExactlyOnce` | pkg/query/executor.go:744-773 | when consumers take turns and every offset is stored, each row up to what was consumed was taken by exactly one successful statement |
| `StreamChains.ExactlyOnceIffLevel` | pkg/query/executor.go:759-771 | when consumers take turns, so it is too where storing an offset can fail, unless a statement succeeds that began while the stored offset lagged behind what had been consumed; then some window begins before the end of the earlier ones |
| `StreamChains.ChainedIffLevel` | pkg/query/executor.go:759-771 | a successful statement's window begins where the earlier ones end exactly when the stored offset was all that had been consumed as it began; there is never a gap |
| `StreamChains.StoredLevel` | pkg/query/executor.go:759-771 | which it always is as long as every offset is stored |
| `StreamOverlaps.FailedStoreReadsTwice` | pkg/query/executor.go:759-771 | after a statement whose offset could not be stored the next one in turn reads the same row again |
| `StreamOverlaps.OverlapReadsTwice` | pkg/query/executor.go:744-773 | of two successful statements, whatever else runs, both consume exactly the rows beyond the offset that was stored as the second began and within what both froze: all that was new to both, if the first had not stored its offset |
| `StreamChains.NothingAhead` | pkg/query/executor.go:744-773 | when every offset is stored and no statement on the stream is under way, nothing beyond the offset has been consumed |
| `StreamOverlaps.ConcurrentConsumersReadTwice` | pkg/query/executor.go:744-773 | a run of two overlapping statements that both take row 0 |
| `StreamTurns.FreshStarts` | pkg/metadata/stream_repository.go:13-49 | a catalog without running statements meets the assumptions |
| `DecimalMeaning.ComparisonRightIff` | _web/src/table-sort.ts:28-49 | for any two texts the parser takes, the numeric comparison has the sign of the exact difference of the rationals they denote exactly when the signs differ, both are zero, or the powers as rounded, and then the digits, decide as the true powers, and then the digits, do |
| `DecimalMeaning.ComparisonIsExact` | _web/src/table-sort.ts:37-52 | so it always has when both exponents are ones that a double holds |
| `DecimalMeaning.PowerIff` | _web/src/table-sort.ts:33-34 | the parsed power is the true one exactly when the exponent is one a double holds |
| `DecimalMeaning.SmallExponentsAreExact` | _web/src/table-sort.ts:33-34 | every exponent up to 2^53 is |
| `DecimalMeaning.DifferentButEqual` | _web/src/table-sort.ts:33-34 | beyond that, 0.01e9007199254740993 and 0.01e9007199254740992 are a factor of ten apart and compare as equal |
| `DecimalMeaning.ColumnOrder` | _web/src/table-sort.ts:37-52 | missing values are last, false is before true, readable numbers of a numeric column compare as decimals, and everything else by its text |
| `DecimalMeaning.NearestAndEven` | _web/src/table-sort.ts:33-34 | rounding gives a nearest multiple, and of two equally near the even one |
| `DecimalTexts.ReadPrinted` | _web/src/table-sort.ts:28-36 | reading a decimal written from its sign, digits, fraction and signed exponent, between any spaces, gives those parts |
| `DecimalTexts.OnlyPrintedIsRead` | _web/src/table-sort.ts:28-36 | and nothing else is read |
| `DecimalDisplay.FormatDenotes` | _web/src/format.ts:46-56 | where the browser writes the value as digits, what is shown denotes value / 10^scale exactly when the scale is not negative or the value is zero |
| `DecimalDisplay.PowerDenotesIff` | _web/src/format.ts:47-55 | where it writes a power of ten, from 10^21 on, what is shown denotes value / 10^scale exactly when the scale is zero |
| `DecimalDisplay.PointInPower` | _web/src/format.ts:52-55 | 10^21 at scale 2 is shown as 1e+.21, which is no number |
| `DecimalDisplay.ShownOrder` | _web/src/table-sort.ts:37-52 | for numbers that the browser writes as digits and scales from 0 to 2^53 - 1, comparing shown decimals gives the order of the stored ones |
| `DecimalDisplay.SortingShown` | _web/src/table-sort.ts:1-52 | a column of such numbers is sorted as shown exactly when it is sorted as stored |
| `Identity.Service.Bootstrap` | pkg/metadata/identity_repository.go:437-473 | the fixed roles and their hierarchy, and the administrator; the whole new catalog is that of the specified step |
| `Identity.Service.CreateUser` | pkg/metadata/identity_repository.go:129-155 | the user together with the grant of its default role; the whole new catalog is that of the specified step |
| `Identity.Service.AlterUser` | pkg/metadata/identity_repository.go:221-247 | a new default role is granted with it; the whole new catalog is that of the specified step |
| `Identity.Service.DeleteUser` | pkg/metadata/identity_repository.go:276-294 | the user and its grants go; the whole new catalog is that of the specified step |
| `Identity.Service.DeleteRole` | pkg/metadata/identity_repository.go:401-433 | a role that is fixed or in use stays; the whole new catalog is that of the specified step |
| `Identity.Service.GrantRoleToUser` | pkg/identity/service.go:422-435 | the grant is added once; the whole new catalog is that of the specified step |
| `Identity.Service.RevokeRoleFromUser` | pkg/metadata/identity_repository.go:313-327 | the default role cannot be revoked; the whole new catalog is that of the specified step |
| `Identity.Service.GrantRoleToRole` | pkg/metadata/identity_repository.go:346-377 | refused for fixed roles, for itself, and for a cycle; the whole new catalog is that of the specified step |
| `Identity.Service.RevokeRoleFromRole` | pkg/identity/service.go:478-491 | the grant is removed; the whole new catalog is that of the specified step |
| `Identity.Service.EffectiveRoles` | pkg/identity/service.go:493-538 | exactly the roles that some directly granted role reaches |
| `Identity.Service.ResolveActiveRole` | pkg/identity/service.go:74-113 | succeeds exactly when the requested or default role exists and is effective, and gives that role |
| `Identity.Service.Authorize` | pkg/identity/service.go:704-740 | access is granted exactly when the active role reaches a role with a matching grant |
| `RoleGraph.Visitor.Visit` | pkg/identity/service.go:510-525 | the depth-first visit ends and marks exactly what the role reaches and was not marked |
| `RoleGraph.Closure` | pkg/identity/service.go:493-538 | visiting from each root finds the reflexive-transitive closure |
| `RoleGraph.Ancestors` | pkg/metadata/identity_repository.go:359-370 | the recursive query finds exactly the roles above the start |
| `RoleGraph.GrantCycle` | pkg/metadata/identity_repository.go:346-377 | a grant closes a cycle exactly when its child already reaches its parent |
| `IdentitySafety.RefusedIffCycle` | pkg/metadata/identity_repository.go:346-377 | between two ordinary roles the ancestor test refuses exactly the grants that would close a cycle |
| `IdentitySafety.RunGood` | pkg/metadata/identity_repository.go:129-473 | every sequence of operations keeps the graph acyclic and the catalog good |
| `IdentitySafety.FromEmpty` | pkg/metadata/identity_repository.go:437-473 | bootstrapping an empty catalog gives a good one |
| `IdentitySafety.EmptyRequestResolves` | pkg/identity/service.go:74-113 | in every reachable catalog each enabled user's default role exists and is effective, so an empty request resolves, to it |
| `IdentityGrants.GrantGives` | pkg/identity/service.go:422-435 | after a grant the user has that grant and all earlier ones and nothing else changed; only PUBLIC is refused |
| `IdentityGrants.RevokeTakes` | pkg/metadata/identity_repository.go:313-327 | after a revoke that grant is gone and all others stay; only PUBLIC and the default role are refused |
| `IdentityGrants.RevokedRoleIsGone` | pkg/identity/service.go:493-538 | the user then has exactly the roles that another grant brings |
| `IdentityGrants.RevokeUndoesGrant` | pkg/metadata/identity_repository.go:296-327 | a revoke after a grant of what was not granted leaves the catalog as it was |
| `IdentityGrants.UnknownChangesNothing` | pkg/identity/service.go:422-447 | without such a user or role nothing is granted or revoked |
| `IdentityGrants.GrantJoins` | pkg/metadata/identity_repository.go:346-377 | between two ordinary roles a grant succeeds exactly when it closes no cycle, and adds exactly its edge |
| `IdentityGrants.RevokeParts` | pkg/identity/service.go:478-491 | between two ordinary roles a revoke takes exactly its edge away |
| `IdentityGrants.GrantPasses` | pkg/identity/service.go:704-740 | a role that is granted another may do whatever that one may |
| `IdentityGrants.AuthorizedIff` | pkg/identity/service.go:704-740 | the account administrator may do everything, any other role exactly what a privilege of it or of a role it reaches says, whatever the case of letters |
| `IdentityGrants.RequestedIsGiven` | pkg/identity/service.go:74-113 | the role asked for by name, or the default role without a name, is the one given, exactly when it is effective |
| `IdentityGrants.DisabledResolvesNothing` | pkg/identity/service.go:74-113 | a disabled user gets no role |
| `IdentityGrants.CreateAdds` | pkg/metadata/identity_repository.go:129-155 | a new user and its grant are exactly what is added |
| `IdentityGrants.AlterSets` | pkg/identity/service.go:222-248 | what is given is set, what is not stays, for this user alone |
| `IdentityGrants.DeleteRemoves` | pkg/metadata/identity_repository.go:276-294 | the user and exactly its grants are gone |
| `IdentityGrants.CreateRoleAdds` | pkg/identity/service.go:317-320 | an ordinary role of the name is added unless the name is taken |
| `IdentityGrants.DeleteRoleRemoves` | pkg/metadata/identity_repository.go:401-433 | a role is deleted exactly when it is ordinary and no user, grant or edge refers to it, and its privileges with it |
| `Sessions.Manager.Publish` | pkg/session/manager.go:65-112 | a new session is in memory before it is stored; the two maps of shared objects stand for exactly the specified new state |
| `Sessions.Manager.FinishPublish` | pkg/session/manager.go:113-131 | and taken out again when it cannot be; the two maps of shared objects stand for exactly the specified new state |
| `Sessions.Manager.InspectSession` | pkg/session/manager.go:208-229 | an unexpired session under its token; an expired one is evicted; the two maps of shared objects stand for exactly the specified new state |
| `Sessions.Manager.FinishValidation` | pkg/session/manager.go:190-204 | validation looks the session up again after touching its row; the two maps of shared objects stand for exactly the specified new state |
| `Sessions.Manager.CloseSession` | pkg/session/manager.go:232-260 | out of both indexes, and out of the store unless that fails; the two maps of shared objects stand for exactly the specified new state |
| `Sessions.Manager.RenewToken` | pkg/session/manager.go:310-353 | the new token replaces the old one in memory and in the store, or neither; the two maps of shared objects stand for exactly the specified new state |
| `Sessions.Manager.UpdateSessionContext` | pkg/session/manager.go:263-289 | database and schema change, or are put back; the two maps of shared objects stand for exactly the specified new state |
| `Sessions.Manager.SetWarehouse` | pkg/session/manager.go:139-153 | the warehouse changes, or is put back; the two maps of shared objects stand for exactly the specified new state |
| `Sessions.Manager.CleanupExpiredSessions` | pkg/session/manager.go:292-307 | expired sessions leave the access index; the count is theirs; the two maps of shared objects stand for exactly the specified new state |
| `Sessions.Manager.UpdateLastAccessed` | pkg/session/manager.go:356-384 | a heartbeat; the two maps of shared objects stand for exactly the specified new state |
| `Sessions.Manager.Restore` | pkg/session/store.go:290-314 | a restart files one session for each row that has not expired |
| `SessionSafety.StepKeeps` | pkg/session/manager.go:65-384 | token index, master index and store agree, each session has at most one row |
| `SessionSafety.ClosedNeverYields` | pkg/session/manager.go:206-260 | after a successful close with the current token no sequence of validation, renewal, heartbeat, cleanup, expiry or restart gives the session out |
| `SessionSafety.CloseEndsExactly` | pkg/session/manager.go:231-260 | a successful close ends a session exactly when the token given is its current one |
| `SessionSafety.FailedCloseComesBack` | pkg/session/manager.go:251-257 | a close that the store refused is undone by a restart |
| `SessionSafety.StaleTokenCloses` | pkg/session/manager.go:231-260 | closing with a token already replaced reports success and ends nothing |
| `SessionSafety.StartsWell` | pkg/session/store.go:290-314 | a store with one row for each session is a good start |
| `SessionLives.StepAgrees` | pkg/session/manager.go:65-384 | to its clients the two indexes, the sessions being created and the rows are one record for each session: one step of them is one step of the record |
| `SessionLives.RunAgrees` | pkg/session/manager.go:65-384 | so is every run: exactly the events that the record serves are answered with the session |
| `SessionLives.RenewedLives` | pkg/session/manager.go:310-353 | after a renewal at a time, over every run that neither closes nor renews the session, the new token yields it at every time up to that time plus the timeout |
| `SessionLives.RenewedEnds` | pkg/session/manager.go:310-353 | and at none later |
| `SessionLives.ReplacedTokenIsDead` | pkg/session/manager.go:332-350 | the token that was replaced never yields it again |
| `SessionLives.RenewedTooLate` | pkg/session/manager.go:322-331 | a renewal after the end of the master token is refused and takes the session out of memory; its row stays, and a restart can bring it back |
| `SessionLives.CreatedLives` | pkg/session/manager.go:65-132 | a session whose creation is stored lives as it was published, whatever others did meanwhile |
| `SessionLives.RefusedNeverYields` | pkg/session/manager.go:113-131 | a creation that the store refuses leaves nothing to hand out |
| `Ctes.FindCteAliases` | pkg/query/contextual_naming.go:89-132 | the reader returns the names and the place that the specified reading gives |
| `Ctes.FindKeyword` | pkg/query/contextual_naming.go:137-154 | the first place where the word stands as code |
| `Ctes.SkipSpaceAndComments` | pkg/query/contextual_naming.go:183-205 | past spaces and comments, never into a literal |
| `Ctes.ReadIdentifierAt` | pkg/query/contextual_naming.go:158-167 | the identifier at the position, if there is one |
| `Ctes.MatchingParen` | pkg/query/contextual_naming.go:210-229 | the closing parenthesis, regions being skipped |
| `Ctes.AliasesExact` | pkg/query/contextual_naming.go:89-132 | for any number of expressions, any gaps and comments between tokens and any balanced bodies: exactly the names, and the offset of the statement after the clause |
| `CteTexts.GrammarRead` | pkg/query/contextual_naming.go:89-132 | so is every clause written by the grammar: gaps of blanks, line comments and nested block comments, bodies of code, literals with doubled quotes, dollar bodies, comments and nested parentheses |
| `CteTexts.GapsAreGaps` | pkg/query/contextual_naming.go:183-205 | blanks and comments in any number are skipped whole |
| `CteTexts.BodiesAreBalanced` | pkg/query/contextual_naming.go:210-229 | the parenthesis around a body of the grammar closes at its end |
| `CteQueries.AliasesUpper` | pkg/query/classifier.go:212-218 | reading the clause in the text in upper case finds the clause of the text as written |
| `CteQueries.QueryIffSelect` | pkg/query/classifier.go:212-218 | after any leading spaces and comments, and in any case, a WITH statement is taken for a query exactly when the statement after the clause begins with SELECT |
| `CteQueries.OnlyWithIsQuery` | pkg/query/classifier.go:212-218 | nothing that does not begin with WITH, in any case, is |
| `CteQueries.ExactIffNotRecursive` | pkg/query/contextual_naming.go:97-100 | without the word RECURSIVE after WITH, names and offset are found exactly when the first name is not that word |
| `CteQueries.RecursiveIsNoName` | pkg/query/contextual_naming.go:97-100 | WITH RECURSIVE AS (SELECT 1) SELECT 1 is not understood |
| `Classifiers.TrimLeadingComments` | pkg/query/classifier.go:56-79 | the loop over leading comments |
| `Classifiers.LeadingIsCode` | pkg/query/classifier.go:52-79 | although every round trims both ends, what is left is the text from its first character of code, trimmed |
| `Histories.StatementManager.CreateStatement` | pkg/query/statement_manager.go:151-168 | a pending statement under a new handle; memory and store are those of the specified change and its recording |
| `Histories.StatementManager.UpdateStatus` | pkg/query/statement_manager.go:198-235 | refused once cancelled; the times are set once; memory and store are those of the specified change and its recording |
| `Histories.StatementManager.SetStatementResult` | pkg/query/statement_manager.go:238-255 | success with a result, unless cancelled; memory and store are those of the specified change and its recording |
| `Histories.StatementManager.SetStatementExecResult` | pkg/query/statement_manager.go:259-276 | success with a count, unless cancelled; memory and store are those of the specified change and its recording |
| `Histories.StatementManager.SetStatementError` | pkg/query/statement_manager.go:279-296 | failure, unless cancelled; memory and store are those of the specified change and its recording |
| `Histories.StatementManager.CancelStatement` | pkg/query/statement_manager.go:313-344 | only what has not ended can be cancelled; memory and store are those of the specified change and its recording |
| `Histories.StatementManager.Cleanup` | pkg/query/statement_manager.go:377-387 | what ended too long ago leaves memory; memory and store are those of the specified change and its recording |
| `Histories.StatementManager.ListStatementsWithContext` | pkg/query/statement_manager.go:430-450 | the merged, sorted and limited listing, for whatever order the map gives |
| `Histories.StatementManager.ListStatementsForUser` | pkg/query/statement_manager.go:454-466 | the user's statements of the whole listing, then limited |
| `Histories.StatementManager.RecordedStatements` | pkg/query/statement_manager.go:470-520 | the fetched rows that memory does not have |
| `Histories.Repository.RecordStatement` | pkg/metadata/statement_history.go:40-85 | the row of the handle is updated, or added |
| `Histories.Repository.ListStatementHistory` | pkg/metadata/statement_history.go:89-142 | newest first, then limited |
| `HistoryListing.LimitedIsPrefix` | pkg/query/statement_manager.go:470-490 | a limited listing is the beginning of the unlimited one: fetching the limit plus the number of statements in memory suffices |
| `HistoryListing.NoHandleTwice` | pkg/query/statement_manager.go:425-450 | no handle is listed twice, and memory wins over the store |
| `HistoryListing.ListingHas` | pkg/query/statement_manager.go:425-450 | the unlimited listing is memory and the rows of other handles, nothing else |
| `HistoryListing.OrderDoesNotMatter` | pkg/query/statement_manager.go:430-450 | the order of the map makes no difference |
| `HistoryListing.PlainLimitIsEnough` | pkg/query/statement_manager.go:481-490 | when the store keeps the creation times, fetching the limit alone would do |
| `HistorySafety.RunKeeps` | pkg/query/statement_manager.go:151-387 | every interleaving of changes and recordings keeps the handles unique and the times right |
| `HistorySafety.ListingsAgree` | pkg/query/statement_manager.go:430-520 | so all of this holds of every listing, with memory as it was under the lock and the store as it is at any later time |
| `HistorySafety.CancelIsFinal` | pkg/query/statement_manager.go:207-212 | a cancelled statement stays cancelled, and once out of memory does not come back |
| `HistorySafety.StoreAgrees` | pkg/query/statement_manager.go:226-234 | if recordings keep the order of the changes and none is lost, the row of a statement has its status once nothing of it is being recorded |
| `HistorySafety.CancelLasts` | pkg/query/statement_manager.go:313-344 | whatever happens and in whatever order recordings are carried out, a statement is listed only as cancelled once nothing of it is being recorded, unless the recording of that is lost: exactly when no recording of another status is under way as it is cancelled |
| `HistorySafety.LostCancelLasts` | pkg/query/statement_manager.go:106-133 | when the recording of the cancellation itself fails, which is only logged, it lasts in every later run exactly when the store has no row that says anything else |
| `HistorySafety.StartBeingRecorded` | pkg/query/statement_manager.go:198-235 | a statement cancelled while its start is being recorded does not stay cancelled |
| `HistorySafety.StartRecorded` | pkg/query/statement_manager.go:198-235 | nor one whose start is recorded and whose cancellation is not |
| `HistoryTold.StatementAsTold` | pkg/query/statement_manager.go:151-344 | over every run a statement in memory is what the changes made to it tell: the last status, the first time of each kind, the last result and the last error |
| `HistoryTold.SummaryAsTold` | pkg/query/statement_manager.go:522-550 | and so is its line in a listing |
| `HistoryTold.ExpiredIff` | pkg/query/statement_manager.go:377-387 | a statement leaves memory exactly when it ended longer ago than it is kept |
| `HistoryTold.PrunedIff` | pkg/metadata/statement_history.go:144-159 | pruning keeps exactly the rows that did not end before the given time, in their order |

## Left out

- Text is ASCII: letters, digits, spaces and upper case are those of ASCII, and offsets count characters.
- DuckDB, files, HTTP, passwords, UUIDs and random tokens: the database is an arbitrary function of what it was told, or a table; new tokens and handles are parameters that are assumed to be new.
- Regular-expression recognizers: rewriting of table references, parsing of MERGE and COPY, stream references and temporary-table statements; their results are parameters.
- The translator's other rewrites: FROM DUAL, FROM VALUES, CREATE TABLE and CREATE VIEW kinds, and what it does before and after the two passes modelled.
- `isQualified` looks at characters only, so a dot that ends a comment before a name counts as a qualifier; the model does the same.
- Markers.TransformMarkedFunction: a method must end, so where the loop of the program repeats one text for ever the method returns `Forever` instead.
- The interpreter's binding of variables into text (`bindVariables`) is a parameter; byte arrays and times are values with a text and a type name.
- MergeRefinement.DecomposedIsMerge: asks that where AND appends a condition to ON neither has OR at its top level, and that the condition of an INSERT has none (`MergePrecedence` says exactly what OR does to each statement); that SET changes nothing that ON or a condition reads and that no clause applies to a pair that an earlier UPDATE applies to, because a row that was updated is looked at again by the later statements; that there is one INSERT clause, because each looks at the rows the earlier ones inserted; and that a target row has at most one source row, because otherwise the database chooses among them.
- Merge.MergeProcessor.ExecuteDecomposedMerge: the native MERGE that is tried first, the replacement of aliases in the text and column lists are not modelled.
- Warehouses: entries are values in a map rather than shared objects; persistence is a flag that says whether saving worked; listing, and the ticker that calls the auto-suspension, are left out.
- StreamChains.ExactlyOnce: consumers take turns and every offset is stored (`StreamChains.ExactlyOnceIffLevel` and `StreamOverlaps` say what happens otherwise); row numbers only grow, and a source table is not dropped and made again.
- Streams: the statement's text and the rows it writes are left out; only what it reads of its streams is kept.
- DecimalMeaning.ComparisonRightIff: is about texts that the parser takes; others are left to the browser's text comparison, which is a parameter.
- Sorting a column that mixes numbers and text: the two orders do not fit together, so nothing is claimed.
- Identity: operations of the service run one after the other; passwords, comments and listings are left out.
- Identity.Service.GrantRoleToUser: the repository's own grant of any role without the service's checks is not an operation of the model.
- Sessions: changing the active role, rows without a master token and the store's own expiry of rows are left out; the token of a session whose creation has not been answered is not known to anyone.
- Sessions.Manager.FinishPublish: when storing a new session fails, the session's present token is evicted, the program evicts the one it generated; the two differ only for a session renewed before its creation was answered, which needs a token that nobody has been given.
- SessionSafety.ClosedNeverYields: creation never gives out a master token again, because tokens are random.
- HistoryListing.LimitedIsPrefix: creation times are distinct, since neither the sort nor the database says what equal times come in; in the store they are as precise as in memory.
- Histories: redaction of the text, cancel functions and the cleanup ticker are left out.
- DecimalDisplay.FormatDenotes: how the browser picks the digits of a number is left out, so the value is the number that its digits denote; up to 2^53 - 1 they are those of the value itself, beyond that they may be the shortest ones that round to it.
- DecimalDisplay.ShownOrder: scales are from 0 to 2^53 - 1, since a negative one is ignored when the number is shown and a larger one has no power the parser takes.
- HistorySafety.CancelLasts: looks at listings once nothing of the statement is being recorded; a listing before that can still show the older row.
- Everything else in the classifier, catalog maintenance, type tables, schedulers and the console's drawing code: plumbing, or easy members.
