# Markdown tokenizer and selection wrapping, in Dafny

This project models two pieces of a collaborative markdown editor:

- **The inline tokenizer** (`Tokenizer.java`, `TokenType.java`, `Token.java`).
  - The constructor finds the maximal delimiter runs of `*`, `_`, `~` and `=`.
  - It gives each run a flank direction by the left- and right-flanking rules of section 6.2 of the CommonMark Spec 0.31.2.
  - It removes or shortens runs that an odd number of backslashes escapes.
  - It drops runs that can never become format tokens.
  - It marks each remaining run OPEN or CLOSE.
  - `getNextToken` is a state machine over a cursor, a run index, a `balanced` flag, a stack of open contexts and a stack of scheduled tokens. It returns TEXT, BOLD, ITALICS, STRIKETHROUGH and HIGHLIGHT tokens, and null at the end.
- **The style buttons of the editor component** (`editor.tsx`).
  - `StyleDefs` gives each style a marker.
  - `wrapSelection` writes the marker before and after the textarea's selection and moves the selection so that it still covers the same text.

The modules are:

| module | file | what it holds |
|---|---|---|
| `Wrappers` | wrappers.dfy | `Option` |
| `TokenTypes` | token_type.dfy | the `TokenType` enum and its symbol lists, `contains`, and `Token` as a datatype |
| `TokenizerUtils` | tokenizer_utils.dfy | `isASCIIPunctuation`, `isWhiteSpace`, `isFormatToken`, `getTokenType` |
| `DelimRuns` | delim_runs.dfy | `DelimRun`, `getTokenSymbol`, the flank rules, the scan for maximal runs, the filter |
| `RunPasses` | run_passes.dfy | `preprocessEscapeChars` and `assignActionTypes` as functions on the run list |
| `Tokenization` | tokenizer_spec.dfy | one `getNextToken` call as a function from state to (outcome, state), and the token stream |
| `TokenizerClass` | tokenizer_class.dfy | `class Tokenizer`: the Java fields, and every method as an imperative method proved equal to those functions |
| `TokenizerExamples` | tokenizer_examples.dfy | the branches of `getNextToken` as proof steps, and unit-test strings worked through to their token streams |
| `Editor` | editor.dfy | `Style`, `StyleDefs`, a textarea class and `wrapSelection` |

`getNextToken` can throw in the Java code. It throws `IndexOutOfBoundsException` when the run index is past the last run at an `=`, `~`, `*` or `_`; an example is the input `*a*=`: the italics around `a` use up both runs, and the lone `=` then reads a run past the end of the list (`TokenizerExamples.PastLastTokens`). It also throws `StringIndexOutOfBoundsException` when the cursor is past the end of the string. The model keeps these paths: the outcome is `Thrown(...)` and the state is unchanged. A token stream that meets one ends as `Failed`.

`preprocessEscapeChars` resets its backslash count only when an escape fires, not at ordinary characters. A backslash therefore escapes the next delimiter however far away it is: `\a*b*` tokenizes to `\a` and `*b*`, the first asterisk taken as escaped (`TokenizerExamples.LetterEscapeTokens`).

`isUnicodePunctuation` depends on Java's Unicode category tables, so the scan takes it as a parameter `punct: char -> bool`.

## Model

| member | source | states |
|---|---|---|
| TokenTypes.ListContains | src/main/java/org/vaadin/editor/tokenizer/TokenType.java:23-28 | the linear search returns true exactly when the symbol is in the list |
| TokenTypes.Contains | src/main/java/org/vaadin/editor/tokenizer/TokenType.java:8-28 | `contains(s)` holds exactly when s is one of the type's symbols; TEXT contains nothing |
| TokenTypes.SymbolsDisjoint | src/main/java/org/vaadin/editor/tokenizer/TokenType.java:8-15 | no symbol is listed by two different types |
| TokenizerUtils.FirstListing | src/main/java/org/vaadin/editor/tokenizer/Tokenizer.java:49-60 | the search over types returns a type that lists the value and is among those searched, or TEXT when none of them lists it |
| TokenizerUtils.GetTokenType | src/main/java/org/vaadin/editor/tokenizer/Tokenizer.java:49-60 | the result lists the value and is the only type that does; it is TEXT exactly when no type lists the value |
| TokenizerUtils.OnlyListing | src/main/java/org/vaadin/editor/tokenizer/TokenType.java:8-15 | a type that lists a value is the only one that does |
| TokenizerUtils.EveryTypeListed | src/main/java/org/vaadin/editor/tokenizer/TokenType.java:7-15 | `TokenType.values()` holds every type |
| TokenizerUtils.FormatSymbolTypes | src/main/java/org/vaadin/editor/tokenizer/TokenType.java:9-12 | the types of `*`, `_`, `**`, `__`, `~~` and `==` |
| TokenizerUtils.EmphasisTypes | src/main/java/org/vaadin/editor/tokenizer/Tokenizer.java:523-541 | one `*` or `_` is ITALICS and two are BOLD |
| TokenizerUtils.FormatSymbols | src/main/java/org/vaadin/editor/tokenizer/Tokenizer.java:41-47 | a value's type is a format type exactly when the value is one of the six format symbols |
| DelimRuns.SymbolIn | src/main/java/org/vaadin/editor/tokenizer/Tokenizer.java:120-126 | the result is a listed symbol that the value contains; none exactly when the value contains no listed symbol |
| DelimRuns.SymbolInFirst | src/main/java/org/vaadin/editor/tokenizer/Tokenizer.java:120-126 | the symbol found is the first in list order that the value contains: every symbol listed before it is absent from the value |
| DelimRuns.GetTokenSymbol | src/main/java/org/vaadin/editor/tokenizer/Tokenizer.java:118-126 | a run's symbol is one of `*`, `_`, `~~`, `==` |
| DelimRuns.UniformHas | src/main/java/org/vaadin/editor/tokenizer/Tokenizer.java:122 | a run of one character contains a run of a character exactly when the characters agree and the run is at least as long |
| DelimRuns.UniformSymbol | src/main/java/org/vaadin/editor/tokenizer/Tokenizer.java:118-126 | the symbol of a run of one character: `*` or `_` for any length, `~~` or `==` only from length 2, and none for a lone `~` or `=` |
| DelimRuns.Flank | src/main/java/org/vaadin/editor/tokenizer/Tokenizer.java:176-198 | BOTH, LEFT, RIGHT or NEITHER, exactly as the left- and right-flanking rules hold or fail; string ends count as a space |
| DelimRuns.RunEnd | src/main/java/org/vaadin/editor/tokenizer/Tokenizer.java:166 | the end of the greedy match: every character up to it repeats the first, and the next one does not |
| DelimRuns.ScanFromOk | src/main/java/org/vaadin/editor/tokenizer/Tokenizer.java:166-201 | the scan from a fresh position yields sorted, maximal runs that cover every delimiter character, each with its flank direction and no action |
| DelimRuns.ScanSkip | src/main/java/org/vaadin/editor/tokenizer/Tokenizer.java:166-168 | characters that are not delimiters start no run |
| DelimRuns.ScanRunAt | src/main/java/org/vaadin/editor/tokenizer/Tokenizer.java:166-201 | at a delimiter the scan yields the maximal run there, then scans on from its end |
| DelimRuns.Scan | src/main/java/org/vaadin/editor/tokenizer/Tokenizer.java:163-201 | the runs of the regular expression `(_+\|\*+\|~+\|=+)` are sorted, each is the text of a maximal run of one delimiter, and every delimiter character lies in one |
| DelimRuns.FilterRuns | src/main/java/org/vaadin/editor/tokenizer/Tokenizer.java:216-229 | a run is kept exactly when it passes the filter test; every kept run has a symbol |
| DelimRuns.KeepIffShape | src/main/java/org/vaadin/editor/tokenizer/Tokenizer.java:216-229 | on a scanned run the filter keeps any `_` run, `*` runs of at most 3, and exactly `~~` and `==` |
| DelimRuns.FilterShapes | src/main/java/org/vaadin/editor/tokenizer/Tokenizer.java:216-229 | every run the filter keeps from scanned runs has the kept shape |
| DelimRuns.FilterSorted | src/main/java/org/vaadin/editor/tokenizer/Tokenizer.java:216-229 | filtering keeps the runs in order |
| DelimRuns.FilterKeepsAll | src/main/java/org/vaadin/editor/tokenizer/Tokenizer.java:216-229 | a list whose runs all pass is left as it is |
| DelimRuns.FilterNone | src/main/java/org/vaadin/editor/tokenizer/Tokenizer.java:216-229 | a list whose runs all fail the test is filtered to nothing |
| RunPasses.DropFirst | src/main/java/org/vaadin/editor/tokenizer/Tokenizer.java:309-311 | an escaped run loses its first character: it starts one later, is one shorter, and ends where it did |
| RunPasses.EscapeScan | src/main/java/org/vaadin/editor/tokenizer/Tokenizer.java:283-317 | the escape loop returns no more runs than it was given, each still well formed; it fails where `runs.get(runIdx)` would be out of bounds |
| RunPasses.EscapeCatchUp | src/main/java/org/vaadin/editor/tokenizer/Tokenizer.java:289-291 | after the catch-up step the run index is past exactly the runs that end at or before i |
| RunPasses.EscapeFiresAtStart | src/main/java/org/vaadin/editor/tokenizer/Tokenizer.java:300-304 | an odd count before a delimiter happens only at the first character of the current run |
| RunPasses.UnfoldNoRun | src/main/java/org/vaadin/editor/tokenizer/Tokenizer.java:303-304 | an escape with no run left to take it is the out-of-bounds failure |
| RunPasses.EscapeScanOk | src/main/java/org/vaadin/editor/tokenizer/Tokenizer.java:283-317 | on runs that are sorted, maximal and cover the delimiters, the loop never fails; its result is sorted and each run is a shortened input run |
| RunPasses.Preprocess | src/main/java/org/vaadin/editor/tokenizer/Tokenizer.java:283-318 | the preprocessed runs are still sorted runs of one character, no more than before, each a suffix of an input run |
| RunPasses.PreprocessByLoop | src/main/java/org/vaadin/editor/tokenizer/Tokenizer.java:283-318 | on scanned runs the loop does not fail, and preprocessing is that loop when there are runs |
| RunPasses.EscapeScanNoBackslash | src/main/java/org/vaadin/editor/tokenizer/Tokenizer.java:294-303 | with no backslash ahead the loop changes no run |
| RunPasses.PreprocessNoBackslash | src/main/java/org/vaadin/editor/tokenizer/Tokenizer.java:283-318 | a string without backslashes keeps its runs |
| RunPasses.NoFireUpTo | src/main/java/org/vaadin/editor/tokenizer/Tokenizer.java:288-301 | iterations over characters that are not backslashes, and not delimiters while the count is odd, change no run and keep the count |
| RunPasses.BackslashStep | src/main/java/org/vaadin/editor/tokenizer/Tokenizer.java:294-297 | a backslash adds one to the count and changes no run |
| RunPasses.EscapeReaches | src/main/java/org/vaadin/editor/tokenizer/Tokenizer.java:286-301 | after one backslash and only ordinary characters the loop reaches the next delimiter with an odd count: ordinary characters do not reset it |
| RunPasses.EscapeFiresAt | src/main/java/org/vaadin/editor/tokenizer/Tokenizer.java:288-304 | the escape at the first delimiter is applied to the run that starts there |
| RunPasses.EscapeFireRemove | src/main/java/org/vaadin/editor/tokenizer/Tokenizer.java:303-308 | an escaped one-character run is removed, and with no backslash after it no other run changes |
| RunPasses.EscapeFireShrink | src/main/java/org/vaadin/editor/tokenizer/Tokenizer.java:303-315 | an escaped longer run loses its first character, the loop skips the rest of the run, and no other run changes |
| RunPasses.EscapeFires | src/main/java/org/vaadin/editor/tokenizer/Tokenizer.java:303-316 | the run at the first delimiter after the backslash is removed or shortened, and nothing else changes |
| RunPasses.OneEscape | src/main/java/org/vaadin/editor/tokenizer/Tokenizer.java:283-318 | with a single backslash in the string, the first run after it is removed when one character long and shortened by one otherwise; every other run is kept |
| RunPasses.FirstMatch | src/main/java/org/vaadin/editor/tokenizer/Tokenizer.java:254-256 | the first open run with the same value, or none when no open run has it |
| RunPasses.AssignFrom | src/main/java/org/vaadin/editor/tokenizer/Tokenizer.java:242-271 | the loop changes only actions, leaves runs before i alone, and gives each later run the action its flank calls for |
| RunPasses.AssignActions | src/main/java/org/vaadin/editor/tokenizer/Tokenizer.java:239-272 | same runs, same order; LEFT opens, RIGHT closes, BOTH gets an action, NEITHER keeps none |
| RunPasses.AssignMatched | src/main/java/org/vaadin/editor/tokenizer/Tokenizer.java:253-264 | the loop keeps the invariant that every BOTH run marked CLOSE has an earlier OPEN run with its value |
| RunPasses.AssignActionsMatched | src/main/java/org/vaadin/editor/tokenizer/Tokenizer.java:253-264 | a BOTH run closes only when an earlier run with the same value was marked OPEN |
| RunPasses.FirstMatchIffOpen | src/main/java/org/vaadin/editor/tokenizer/Tokenizer.java:254-257 | findFirst finds a run exactly when the open list holds a run with that value |
| RunPasses.OpenWithAppend | src/main/java/org/vaadin/editor/tokenizer/Tokenizer.java:246-248 | pushing a run onto the open list adds one for its value |
| RunPasses.OpenWithRemove | src/main/java/org/vaadin/editor/tokenizer/Tokenizer.java:257-260 | removing the matched entry subtracts one for its value |
| RunPasses.MarkBalance | src/main/java/org/vaadin/editor/tokenizer/Tokenizer.java:245-266 | marking a run adds its effect to the balance of the runs up to it |
| RunPasses.AssignPass | src/main/java/org/vaadin/editor/tokenizer/Tokenizer.java:242-271 | one pass of the loop marks LEFT OPEN and pushes it, marks RIGHT CLOSE, closes a BOTH run against the first open match and removes it or opens and pushes it, and leaves NEITHER alone |
| RunPasses.BalanceStep | src/main/java/org/vaadin/editor/tokenizer/Tokenizer.java:242-271 | one pass keeps, for every value, the count of open-list entries equal to the balance of the runs before; a BOTH run closes when that balance is positive |
| RunPasses.AssignBalanceFrom | src/main/java/org/vaadin/editor/tokenizer/Tokenizer.java:242-271 | from any point of the loop, a later BOTH run closes exactly when the assigned runs before it leave its value open, and the balance is never negative |
| RunPasses.AssignActionsBoth | src/main/java/org/vaadin/editor/tokenizer/Tokenizer.java:253-264 | a BOTH run is CLOSE exactly when the assigned runs before it leave a run of its value open (OPEN runs minus BOTH runs that closed), and OPEN exactly when none is left |
| RunPasses.InitialRuns | src/main/java/org/vaadin/editor/tokenizer/Tokenizer.java:163-237 | the constructor's runs are sorted, have the kept shapes, and carry the action their flank calls for |
| RunPasses.InitialRunsPasses | src/main/java/org/vaadin/editor/tokenizer/Tokenizer.java:163-237 | on the scanned runs the escape loop does not fail, and filtering and assigning actions to its result gives the constructor's runs |
| Tokenization.HasRunAt | src/main/java/org/vaadin/editor/tokenizer/Tokenizer.java:329-337 | `getRunAtPos(pos) != null` exactly when some run covers pos |
| Tokenization.StopPointFirst | src/main/java/org/vaadin/editor/tokenizer/Tokenizer.java:348-358 | the do-while stops at the first point where two or more members balance, or at the end |
| Tokenization.MembersStartAtCur | src/main/java/org/vaadin/editor/tokenizer/Tokenizer.java:346-355 | the group starts with the current run |
| Tokenization.GroupSpec | src/main/java/org/vaadin/editor/tokenizer/Tokenizer.java:339-366 | the loop from i returns the same-symbol members up to the stopping point when they balance, and null otherwise |
| Tokenization.EquivalenceGroup | src/main/java/org/vaadin/editor/tokenizer/Tokenizer.java:339-366 | a group exists only when the current run is not the last; it starts with the current run, lies within the list, and its OPEN and CLOSE lengths are equal |
| Tokenization.EquivalenceGroupIs | src/main/java/org/vaadin/editor/tokenizer/Tokenizer.java:339-366 | the group is the members with the current run's symbol, from the current run to the first stopping point, when they balance, and null otherwise |
| Tokenization.CatchUp | src/main/java/org/vaadin/editor/tokenizer/Tokenizer.java:404-409 | the run index moves past exactly the runs that end at or before the cursor, so it is the list size or a run ending after the cursor |
| Tokenization.UpdateState | src/main/java/org/vaadin/editor/tokenizer/Tokenizer.java:390-410 | updateState changes only the context stack and the run index |
| Tokenization.TextEnd | src/main/java/org/vaadin/editor/tokenizer/Tokenizer.java:368-384 | the text token ends at the first backslash, or at a delimiter in a run while balanced, or at the end |
| Tokenization.TextTokenNonempty | src/main/java/org/vaadin/editor/tokenizer/Tokenizer.java:368-384 | a text token starting at a character that does not stop text is not empty |
| Tokenization.UpdateKeepsValid | src/main/java/org/vaadin/editor/tokenizer/Tokenizer.java:390-410 | updateState keeps the run index in range and only format symbols on the context stack |
| Tokenization.NoTokenIffAtEnd | src/main/java/org/vaadin/editor/tokenizer/Tokenizer.java:386-388 | getNextToken returns null exactly when the cursor is at the end, and a null or a throw changes nothing |
| Tokenization.EscapeToken | src/main/java/org/vaadin/editor/tokenizer/Tokenizer.java:435-452 | before ASCII punctuation the token is TEXT of that character alone, before anything else TEXT of the backslash and the character, the cursor moving 2; a backslash at the end is TEXT of itself, the cursor moving 1 |
| Tokenization.EscapeGood | src/main/java/org/vaadin/editor/tokenizer/Tokenizer.java:435-452 | the backslash case is a good step: a nonempty TEXT token, the cursor forward, the state valid |
| Tokenization.TextGood | src/main/java/org/vaadin/editor/tokenizer/Tokenizer.java:549-557 | the text fallback returns a nonempty TEXT token and moves the cursor on |
| Tokenization.CloseGood | src/main/java/org/vaadin/editor/tokenizer/Tokenizer.java:504-510 | closing a context is a good step: a nonempty, well-typed token, the cursor forward, the state valid and less input left |
| Tokenization.DoubleGood | src/main/java/org/vaadin/editor/tokenizer/Tokenizer.java:453-498 | the `=` and `~` cases return a nonempty, well-typed token and keep the state valid |
| Tokenization.SingleGood | src/main/java/org/vaadin/editor/tokenizer/Tokenizer.java:539-543 | a current run other than three long gives a good step (nonempty, well-typed token, cursor forward, state valid) |
| Tokenization.TripleGood | src/main/java/org/vaadin/editor/tokenizer/Tokenizer.java:523-529 | a run of three whose group ends in three gives a good step, with its scheduled token the state stays valid |
| Tokenization.SplitGood | src/main/java/org/vaadin/editor/tokenizer/Tokenizer.java:530-538 | a run of three whose group ends otherwise gives a good step, with its scheduled token the state stays valid |
| Tokenization.ScheduleValid | src/main/java/org/vaadin/editor/tokenizer/Tokenizer.java:527-537 | scheduling one nonempty, well-typed token on an empty stack keeps the state valid |
| Tokenization.EmphasisGood | src/main/java/org/vaadin/editor/tokenizer/Tokenizer.java:519-544 | every emphasis token is nonempty and well typed, and the cursor moves on |
| Tokenization.EmphasisCaseGood | src/main/java/org/vaadin/editor/tokenizer/Tokenizer.java:499-546 | the `*` and `_` case returns a nonempty, well-typed token and keeps the state valid |
| Tokenization.NextTokenProgress | src/main/java/org/vaadin/editor/tokenizer/Tokenizer.java:412-560 | every token getNextToken returns is nonempty and well typed; the cursor moves forward; the state stays valid; what is left to read shrinks |
| Tokenization.Drain | src/main/java/org/vaadin/editor/tokenizer/Tokenizer.java:412-560 | calling getNextToken until null always ends, gives at most one token per character and scheduled token, and every token is nonempty and well typed |
| Tokenization.KeptRunsValid | src/main/java/org/vaadin/editor/tokenizer/Tokenizer.java:216-229 | every run that survives the filter has a value and a symbol |
| Tokenization.InitialValid | src/main/java/org/vaadin/editor/tokenizer/Tokenizer.java:134-161 | the constructed runs are usable and the initial state (cursor 0, balanced, empty stacks) is valid |
| Tokenization.Tokenize | src/main/java/org/vaadin/editor/tokenizer/Tokenizer.java:163-237 | the token stream of a string holds only nonempty, well-typed tokens |
| Tokenization.NoDelimNoRuns | src/main/java/org/vaadin/editor/tokenizer/Tokenizer.java:163-229 | a string without delimiter characters has no runs |
| Tokenization.LoneDelimsNoRuns | src/main/java/org/vaadin/editor/tokenizer/Tokenizer.java:163-229 | a string whose only delimiters are single `~` or `=` characters, with no backslash, has no runs: each lone run has no symbol and is filtered out |
| Tokenization.LoneRunDropped | src/main/java/org/vaadin/editor/tokenizer/Tokenizer.java:216-229 | in such a string every scanned run fails the filter |
| Tokenization.NoRunsText | src/main/java/org/vaadin/editor/tokenizer/Tokenizer.java:412-560 | with no runs and no backslash the stream is the whole string as one TEXT token, or nothing for the empty string |
| Tokenization.TextEndNoStop | src/main/java/org/vaadin/editor/tokenizer/Tokenizer.java:368-384 | with no stopping character ahead, the text token runs to the end of the string |
| Tokenization.DrainLast | src/main/java/org/vaadin/editor/tokenizer/Tokenizer.java:386-388 | a call that returns a token and reaches the end of the string is followed by null, so the stream is that token |
| Tokenization.PlainTextTokens | src/test/java/org/vaadin/editor/tokenizer/TokenizerTests.java:33-38 | a string without delimiters or backslashes is one TEXT token, and the empty string is none |
| TokenizerExamples.ScheduledBranch | src/main/java/org/vaadin/editor/tokenizer/Tokenizer.java:414-419 | proof step: a scheduled token is popped and returned before anything is read |
| TokenizerExamples.PlainBranch | src/main/java/org/vaadin/editor/tokenizer/Tokenizer.java:549-557 | proof step: any other character starts a text token |
| TokenizerExamples.StarDispatch | src/main/java/org/vaadin/editor/tokenizer/Tokenizer.java:499-546 | proof step: `*` and `_` go to the emphasis case |
| TokenizerExamples.DoubleDispatch | src/main/java/org/vaadin/editor/tokenizer/Tokenizer.java:453-498 | proof step: `=` and `~` go to the double case |
| TokenizerExamples.CloseBranch | src/main/java/org/vaadin/editor/tokenizer/Tokenizer.java:504-510 | proof step: a CLOSE run while balanced with an open context closes it |
| TokenizerExamples.EmphasisBranch | src/main/java/org/vaadin/editor/tokenizer/Tokenizer.java:512-544 | proof step: with a group found, the input is balanced and the group decides the token |
| TokenizerExamples.PastLastRunBranch | src/main/java/org/vaadin/editor/tokenizer/Tokenizer.java:324-327 | proof step: at `=` or `~` with the run index past the last run, getCurDelimiterRun throws |
| TokenizerExamples.TripleBranch | src/main/java/org/vaadin/editor/tokenizer/Tokenizer.java:523-529 | proof step: the bold-then-italics split of a triple run |
| TokenizerExamples.SingleBranch | src/main/java/org/vaadin/editor/tokenizer/Tokenizer.java:539-542 | proof step: a run other than three long is returned as it is |
| TokenizerExamples.DrainStep | src/main/java/org/vaadin/editor/tokenizer/Tokenizer.java:412-560 | the stream is the returned token followed by the stream from the next state |
| TokenizerExamples.TraceTail | src/test/java/org/vaadin/editor/tokenizer/TokenizerTests.java:11-20 | a trace of calls stays a trace after its first step |
| TokenizerExamples.DrainTrace | src/test/java/org/vaadin/editor/tokenizer/TokenizerTests.java:11-20 | a sequence of calls that ends in null is the token stream |
| TokenizerExamples.DrainEnd | src/main/java/org/vaadin/editor/tokenizer/Tokenizer.java:413 | a call that returns null ends the stream |
| TokenizerExamples.DrainThrow | src/main/java/org/vaadin/editor/tokenizer/Tokenizer.java:324-327 | a call that throws ends the stream with that failure |
| TokenizerExamples.StarSymbol | src/main/java/org/vaadin/editor/tokenizer/Tokenizer.java:120-126 | a run of asterisks has the symbol `*` |
| TokenizerExamples.NestedScan | src/test/java/org/vaadin/editor/tokenizer/TokenizerTests.java:122 | `"***hello***"` scans to a LEFT run at 0-3 and a RIGHT run at 8-11 |
| TokenizerExamples.NestedKept | src/test/java/org/vaadin/editor/tokenizer/TokenizerTests.java:122 | both runs of `"***hello***"` survive preprocessing and the filter |
| TokenizerExamples.NestedAssigned | src/test/java/org/vaadin/editor/tokenizer/TokenizerTests.java:122 | the first run opens and the second closes |
| TokenizerExamples.NestedInitialRuns | src/test/java/org/vaadin/editor/tokenizer/TokenizerTests.java:122 | the constructed runs of `"***hello***"` |
| TokenizerExamples.NestedGroup | src/test/java/org/vaadin/editor/tokenizer/TokenizerTests.java:122 | the equivalence group of the opening run is both runs |
| TokenizerExamples.NestedStep1 | src/test/java/org/vaadin/editor/tokenizer/TokenizerTests.java:115 | the first call returns BOLD `**` and schedules ITALICS `*` |
| TokenizerExamples.NestedStep2 | src/test/java/org/vaadin/editor/tokenizer/TokenizerTests.java:116 | the second call returns the scheduled ITALICS `*` |
| TokenizerExamples.NestedStep3 | src/test/java/org/vaadin/editor/tokenizer/TokenizerTests.java:117 | the third call returns TEXT `hello` |
| TokenizerExamples.NestedStep4 | src/test/java/org/vaadin/editor/tokenizer/TokenizerTests.java:118 | the fourth call closes the ITALICS context |
| TokenizerExamples.NestedStep5 | src/test/java/org/vaadin/editor/tokenizer/TokenizerTests.java:119 | the fifth call closes the BOLD context and reaches the end |
| TokenizerExamples.NestedDrain | src/test/java/org/vaadin/editor/tokenizer/TokenizerTests.java:111-122 | the stream from the initial state is `**`, `*`, `hello`, `*`, `**` and ends |
| TokenizerExamples.NestedTokens | src/test/java/org/vaadin/editor/tokenizer/TokenizerTests.java:111-122 | `"***hello***"` tokenizes to BOLD, ITALICS, TEXT `hello`, ITALICS, BOLD, for any punctuation table |
| TokenizerExamples.TokenizeWith | src/main/java/org/vaadin/editor/tokenizer/Tokenizer.java:163-237 | tokenizing is draining from the initial state over the constructed runs |
| TokenizerExamples.BackslashLetterStep | src/main/java/org/vaadin/editor/tokenizer/Tokenizer.java:435-446 | on `"\s"` the first call returns TEXT `\s` and reaches the end |
| TokenizerExamples.BackslashLetterTokens | src/test/java/org/vaadin/editor/tokenizer/TokenizerTests.java:130-131 | `"\s"` is the single token `\s` |
| TokenizerExamples.LoneBackslashTokens | src/test/java/org/vaadin/editor/tokenizer/TokenizerTests.java:133-134 | `"\"` is the single token `\` |
| TokenizerExamples.EscapedStarScan | src/test/java/org/vaadin/editor/tokenizer/TokenizerTests.java:136-139 | the only run of `"\*"` is the asterisk |
| TokenizerExamples.EscapedStarRuns | src/test/java/org/vaadin/editor/tokenizer/TokenizerTests.java:136-139 | the escaped asterisk run is removed, so `"\*"` has no runs |
| TokenizerExamples.EscapedStarTokens | src/test/java/org/vaadin/editor/tokenizer/TokenizerTests.java:136-139 | `"\*"` is the single token TEXT `*` |
| TokenizerExamples.UnbalancedScan | src/test/java/org/vaadin/editor/tokenizer/TokenizerTests.java:185-186 | `"**1*"` scans to a LEFT run `**` and a RIGHT run `*` |
| TokenizerExamples.UnbalancedKept | src/test/java/org/vaadin/editor/tokenizer/TokenizerTests.java:185-186 | both runs of `"**1*"` pass preprocessing and the filter |
| TokenizerExamples.UnbalancedAssigned | src/test/java/org/vaadin/editor/tokenizer/TokenizerTests.java:185-186 | the first run opens and the second closes |
| TokenizerExamples.UnbalancedInitialRuns | src/test/java/org/vaadin/editor/tokenizer/TokenizerTests.java:185-186 | the constructed runs of `"**1*"` |
| TokenizerExamples.UnbalancedGroup | src/test/java/org/vaadin/editor/tokenizer/TokenizerTests.java:185-186 | two OPEN characters against one CLOSE character never balance: there is no group |
| TokenizerExamples.UnbalancedStep | src/test/java/org/vaadin/editor/tokenizer/TokenizerTests.java:185-186 | without a group the first call returns all of `"**1*"` as TEXT |
| TokenizerExamples.UnbalancedDrain | src/test/java/org/vaadin/editor/tokenizer/TokenizerTests.java:185-186 | the stream from the initial state is that one token |
| TokenizerExamples.UnbalancedTokens | src/test/java/org/vaadin/editor/tokenizer/TokenizerTests.java:185-186 | `"**1*"` is the single token `**1*` |
| TokenizerExamples.TildeTextShape | src/test/java/org/vaadin/editor/tokenizer/TokenizerTests.java:40-48 | the only delimiters of `"~just some text"` and `"~just some text~"` are lone tildes, and neither has a backslash |
| TokenizerExamples.TildeTextTokens | src/test/java/org/vaadin/editor/tokenizer/TokenizerTests.java:40-48 | `"~just some text~"` and `"~just some text"` are each one TEXT token of the whole string |
| TokenizerExamples.LetterEscapeScan | src/main/java/org/vaadin/editor/tokenizer/Tokenizer.java:163-201 | the runs of `"\a*b*"` are its two asterisks |
| TokenizerExamples.LetterEscapePreprocessed | src/main/java/org/vaadin/editor/tokenizer/Tokenizer.java:286-316 | the backslash escapes the asterisk two characters later, because the letter between them does not reset the count: the first run is removed |
| TokenizerExamples.LetterEscapeKept | src/main/java/org/vaadin/editor/tokenizer/Tokenizer.java:216-229 | the remaining asterisk run passes the filter |
| TokenizerExamples.LetterEscapeAssigned | src/main/java/org/vaadin/editor/tokenizer/Tokenizer.java:239-272 | the remaining run, right-flanking, closes |
| TokenizerExamples.LetterEscapeRuns | src/main/java/org/vaadin/editor/tokenizer/Tokenizer.java:163-237 | the constructed runs of `"\a*b*"` are the last asterisk alone |
| TokenizerExamples.LetterEscapeStep1 | src/main/java/org/vaadin/editor/tokenizer/Tokenizer.java:435-446 | the first call returns TEXT `\a` |
| TokenizerExamples.LetterEscapeStep2 | src/main/java/org/vaadin/editor/tokenizer/Tokenizer.java:512-553 | the lone CLOSE run has no group, so the rest, `*b*`, is one TEXT token |
| TokenizerExamples.LetterEscapeDrain | src/main/java/org/vaadin/editor/tokenizer/Tokenizer.java:412-560 | the stream from the initial state is `\a`, `*b*` |
| TokenizerExamples.LetterEscapeTokens | src/main/java/org/vaadin/editor/tokenizer/Tokenizer.java:286-316 | `"\a*b*"` is TEXT `\a` then TEXT `*b*`: the asterisk after the letter is taken as escaped |
| TokenizerExamples.PastLastFlanks | src/main/java/org/vaadin/editor/tokenizer/Tokenizer.java:176-198 | in `"*a*="` the first asterisk is LEFT and the second, before the punctuation `=`, RIGHT (with Java's punctuation on ASCII) |
| TokenizerExamples.PastLastScan | src/main/java/org/vaadin/editor/tokenizer/Tokenizer.java:163-201 | the runs of `"*a*="` are the two asterisks and the `=` |
| TokenizerExamples.PastLastPreprocessed | src/main/java/org/vaadin/editor/tokenizer/Tokenizer.java:283-318 | with no backslash preprocessing keeps the three runs |
| TokenizerExamples.PastLastFiltered | src/main/java/org/vaadin/editor/tokenizer/Tokenizer.java:216-229 | the lone `=` has no symbol and is dropped; the asterisks are kept |
| TokenizerExamples.PastLastKept | src/main/java/org/vaadin/editor/tokenizer/Tokenizer.java:163-229 | the runs that survive the filter are the two asterisks |
| TokenizerExamples.PastLastAssigned | src/main/java/org/vaadin/editor/tokenizer/Tokenizer.java:239-272 | the first asterisk opens and the second closes |
| TokenizerExamples.PastLastInitialRuns | src/main/java/org/vaadin/editor/tokenizer/Tokenizer.java:163-237 | the constructed runs of `"*a*="` |
| TokenizerExamples.PastLastGroup | src/main/java/org/vaadin/editor/tokenizer/Tokenizer.java:339-366 | the two asterisks form a balanced group |
| TokenizerExamples.PastLastStep1 | src/main/java/org/vaadin/editor/tokenizer/Tokenizer.java:539-543 | the first call returns ITALICS `*` and opens a context |
| TokenizerExamples.PastLastStep2 | src/main/java/org/vaadin/editor/tokenizer/Tokenizer.java:549-557 | the second call returns TEXT `a` |
| TokenizerExamples.PastLastStep3 | src/main/java/org/vaadin/editor/tokenizer/Tokenizer.java:504-510 | the third call closes the ITALICS context and moves the run index past the last run |
| TokenizerExamples.PastLastStep4 | src/main/java/org/vaadin/editor/tokenizer/Tokenizer.java:324-327 | at the `=` the fourth call throws IndexOutOfBounds |
| TokenizerExamples.PastLastDrain | src/main/java/org/vaadin/editor/tokenizer/Tokenizer.java:412-560 | the stream from the initial state is ITALICS `*`, TEXT `a`, ITALICS `*`, then the throw |
| TokenizerExamples.PastLastTokens | src/main/java/org/vaadin/editor/tokenizer/Tokenizer.java:453-498 | `"*a*="` gives ITALICS, TEXT `a`, ITALICS and then fails with IndexOutOfBounds |
| TokenizerClass.Tokenizer.constructor | src/main/java/org/vaadin/editor/tokenizer/Tokenizer.java:163-237 | the runs are scanned, preprocessed, filtered and given their actions; the state is initial and valid |
| TokenizerClass.Tokenizer.PreprocessEscapeChars | src/main/java/org/vaadin/editor/tokenizer/Tokenizer.java:283-318 | the in-place loop leaves the run list the escape pass computes, and changes no other field |
| TokenizerClass.Tokenizer.AssignActionTypes | src/main/java/org/vaadin/editor/tokenizer/Tokenizer.java:239-272 | the in-place loop leaves the runs with the actions the assignment pass computes |
| TokenizerClass.Tokenizer.GetRunAtPos | src/main/java/org/vaadin/editor/tokenizer/Tokenizer.java:329-337 | a run is returned exactly when some run covers pos, and the one returned covers it |
| TokenizerClass.Tokenizer.GetRunEquivalenceGroup | src/main/java/org/vaadin/editor/tokenizer/Tokenizer.java:339-366 | null when the current run is the last; otherwise the do-while's result is the equivalence group |
| TokenizerClass.Tokenizer.GetTextTokenValue | src/main/java/org/vaadin/editor/tokenizer/Tokenizer.java:368-384 | the text from the cursor to the first stopping character |
| TokenizerClass.Tokenizer.CatchUpRunIdx | src/main/java/org/vaadin/editor/tokenizer/Tokenizer.java:404-409 | the while loop moves the run index to the catch-up point |
| TokenizerClass.Tokenizer.UpdateState | src/main/java/org/vaadin/editor/tokenizer/Tokenizer.java:390-410 | the context stack and run index become what updateState computes |
| TokenizerClass.Tokenizer.EmitToken | src/main/java/org/vaadin/editor/tokenizer/Tokenizer.java:543-559 | the cursor moves past the value, the state is updated, and the token is returned |
| TokenizerClass.Tokenizer.GetNextToken | src/main/java/org/vaadin/editor/tokenizer/Tokenizer.java:412-560 | one call is the state machine's step; it keeps the object valid, returns null exactly at the end, and every token it returns is nonempty, well typed and moves the cursor forward |
| TokenizerClass.Tokenizer.ReadAtCursor | src/main/java/org/vaadin/editor/tokenizer/Tokenizer.java:421-559 | with nothing scheduled and input left, the switch on the character at the cursor is the state machine's step |
| TokenizerClass.Tokenizer.TextCase | src/main/java/org/vaadin/editor/tokenizer/Tokenizer.java:549-557 | the text fallback returns the text up to the first stopping character and updates the state as the step function does |
| TokenizerClass.Tokenizer.EscapeCase | src/main/java/org/vaadin/editor/tokenizer/Tokenizer.java:435-452 | the backslash case returns and moves past what the escape step does |
| TokenizerClass.Tokenizer.DoubleCase | src/main/java/org/vaadin/editor/tokenizer/Tokenizer.java:453-498 | the `=` and `~` cases agree with the double-symbol step, including its throw and its fallbacks to text |
| TokenizerClass.Tokenizer.EmphasisCase | src/main/java/org/vaadin/editor/tokenizer/Tokenizer.java:499-546 | the `*` and `_` case agrees with the emphasis step, including its throw, the context close and the fallback to text |
| TokenizerClass.Tokenizer.EmphasisGroupCase | src/main/java/org/vaadin/editor/tokenizer/Tokenizer.java:519-544 | the `*` and `_` tokens once the group is known, with the scheduled token pushed |
| Editor.StyleDefs | src/main/frontend/components/editor.tsx:17-38 | every style has a nonempty label and marker |
| Editor.MarkerTypes | src/main/frontend/components/editor.tsx:17-38 | each marker is the tokenizer symbol of the matching token type; all but the code-block marker open a formatting context |
| Editor.StyleDefsDistinct | src/main/frontend/components/editor.tsx:17-38 | different styles have different labels and different markers |
| Editor.Wrap | src/main/frontend/components/editor.tsx:56-59 | the new text keeps the text before the selection, then has the marker, the selected text, the marker again and the text after the selection; it is 2·\|marker\| longer |
| Editor.Unwrap | src/main/frontend/components/editor.tsx:59 | taking the two markers out shortens the text by their length |
| Editor.UnwrapWrap | src/main/frontend/components/editor.tsx:59 | taking the markers back out of the new text gives the old text |
| Editor.WrapInjective | src/main/frontend/components/editor.tsx:59 | different texts give different wrapped texts |
| Editor.TextArea.Selected | src/main/frontend/components/editor.tsx:56 | the selected text is as long as the selection |
| Editor.TextArea.SetSelectionRange | src/main/frontend/components/editor.tsx:63 | the selection becomes the given range and the text is unchanged |
| Editor.WrapSelection | src/main/frontend/components/editor.tsx:51-64 | without a textarea nothing changes; otherwise the text is wrapped, and the selection moves by the marker length and selects the same text as before |

## Left out

- `isUnicodePunctuation` (Tokenizer.java:21-31) reads Java's Unicode category tables. The scan takes it as the parameter `punct`. `TokenizerUtils.AgreesOnAscii` records what those tables say on the ASCII range; the `*a*=` example requires it, since whether the second asterisk can open depends on `=` being punctuation.
- The regular expression `(_+|\*+|~+|=+)` is modelled as a direct scan for maximal runs of one delimiter character, which is the set of its matches.
- Java `char` is a UTF-16 code unit, and so are the `selectionStart`/`selectionEnd` offsets and string lengths in `editor.tsx`. Dafny `char` is a Unicode scalar value, so surrogate pairs are not modelled on either side.
- `int` fields and the cursor are unbounded. Strings of 2^31 characters or more are not modelled.
- `TokenizerClass.Tokenizer.PreprocessEscapeChars`: requires that the loop never looks for a run past the end of the list. This holds for the runs the constructor scans (`RunPasses.PreprocessByLoop`), and the out-of-bounds path is modelled in `RunPasses.EscapeScan`.
- `DelimRuns.SymbolIn`: its own ensures do not say the symbol found is the first in list order; `DelimRuns.SymbolInFirst` states that, kept apart because the quantified fact slows every proof that unfolds `GetTokenSymbol`.
- `RunPasses.Preprocess`: its ensures give the shape of the result only. Which run an escape removes or shortens is stated by `RunPasses.OneEscape` for strings with one backslash, and `RunPasses.PreprocessNoBackslash` for none; for several backslashes only the general shape is proved.
- `RunPasses.AssignFrom`, `RunPasses.AssignActions`: their ensures only say a BOTH run gets some action. The rule itself is `RunPasses.AssignBalanceFrom` and `RunPasses.AssignActionsBoth`: CLOSE exactly when a run of the same value is still open, OPEN otherwise.
- `RunPasses.AssignActionsMatched`: one direction only; `RunPasses.AssignActionsBoth` gives both.
- `Tokenization.EscapeGood`: states the good-step facts only; the token values and the cursor moves are in the ensures of `Tokenization.EscapeToken`.
- `TokenizerClass.Tokenizer.GetNextToken`: requires the object invariant `Valid()`, which the constructor establishes and every call keeps.
- Java objects are modelled as values:
  - Runs are values in a sequence, and `openRuns` is a list of indices into it.
  - The group of `getRunEquivalenceGroup` is a list of run indices.
  - Two runs with equal fields are not told apart; the scanned runs are never equal, because their positions differ.
- `Tokenizer.main`, `toString` and the commented-out debug printing are not modelled.
- In `editor.tsx`, `editor.focus()` and the rendering of the buttons (`createStyleButton`, `styleButtons`, the JSX) are user interface. The constant `charLimit` is unused by the code. The style labels are kept only as data.
- The parser (`Parser.java`, `parser/Tree.java`, `parser/Parser.java`), the WebSocket and session classes and the other views are not part of this model.
