/**
 * Concrete token streams, following the tokenizer's unit tests: each
 * example is worked from the string through the scan, the two passes and
 * the successive getNextToken calls. Every step is split in two lemmas,
 * which branch of getNextToken applies and what that branch yields.
 */
module TokenizerExamples {
  import opened Wrappers
  import opened TokenTypes
  import opened TokenizerUtils
  import opened DelimRuns
  import opened RunPasses
  import opened Tokenization

  // ---------------------------------------------------------------------
  // Branches of getNextToken and steps of the token stream, for symbolic inputs

  /** A scheduled token is returned first. */
  lemma ScheduledBranch(s: string, runs: seq<DelimRun>, st: TokState)
    requires RunsValid(runs) && st.cursor != |s| && |st.scheduled| != 0
    ensures NextToken(s, runs, st) ==
            Emit(s, runs, Unschedule(st), Last(st.scheduled).tokenType, Last(st.scheduled).value)
  {
  }

  /** A character that is neither a backslash nor a delimiter starts a text token. */
  lemma PlainBranch(s: string, runs: seq<DelimRun>, st: TokState)
    requires RunsValid(runs) && st.cursor < |s| && |st.scheduled| == 0
    requires s[st.cursor] != '\\' && !IsDelimChar(s[st.cursor])
    ensures NextToken(s, runs, st) == TextToken(s, runs, st)
  {
  }

  /** A '*' or '_' at the cursor, nothing scheduled: the emphasis case decides. */
  lemma StarDispatch(s: string, runs: seq<DelimRun>, st: TokState)
    requires RunsValid(runs) && st.cursor < |s| && |st.scheduled| == 0
    requires s[st.cursor] == '*' || s[st.cursor] == '_'
    ensures NextToken(s, runs, st) == EmphasisCase(s, runs, st, s[st.cursor])
  {
  }

  /** A '=' or '~' at the cursor, nothing scheduled: the double-symbol case decides. */
  lemma DoubleDispatch(s: string, runs: seq<DelimRun>, st: TokState)
    requires RunsValid(runs) && st.cursor < |s| && |st.scheduled| == 0
    requires s[st.cursor] == '=' || s[st.cursor] == '~'
    ensures NextToken(s, runs, st) == DoubleToken(s, runs, st, s[st.cursor])
  {
  }

  /** A '*' or '_' at the cursor whose current run closes the innermost context. */
  lemma CloseBranch(s: string, runs: seq<DelimRun>, st: TokState)
    requires RunsValid(runs) && st.cursor < |s| && |st.scheduled| == 0
    requires (s[st.cursor] == '*' || s[st.cursor] == '_') && st.curRunIdx < |runs| && ClosesContext(runs, st)
    ensures NextToken(s, runs, st) == ContextClose(s, runs, st)
  {
    StarDispatch(s, runs, st);
  }

  /** A '*' or '_' at the cursor whose current run starts a balanced group. */
  lemma EmphasisBranch(s: string, runs: seq<DelimRun>, st: TokState, g: seq<nat>)
    requires RunsValid(runs) && st.cursor < |s| && |st.scheduled| == 0
    requires (s[st.cursor] == '*' || s[st.cursor] == '_') && st.curRunIdx < |runs| && !ClosesContext(runs, st)
    requires EquivalenceGroup(runs, st.curRunIdx) == Some(g)
    ensures NextToken(s, runs, st) == EmphasisToken(s, runs, SetBalanced(st, true), s[st.cursor], g)
  {
    StarDispatch(s, runs, st);
  }

  /** A '=' or '~' at the cursor after the last run: runs.get(curRunIdx) throws. */
  lemma PastLastRunBranch(s: string, runs: seq<DelimRun>, st: TokState)
    requires RunsValid(runs) && st.cursor < |s| && |st.scheduled| == 0
    requires (s[st.cursor] == '=' || s[st.cursor] == '~') && |runs| != 0 && st.curRunIdx >= |runs|
    ensures NextToken(s, runs, st) == (Thrown(IndexOutOfBounds), st)
  {
    DoubleDispatch(s, runs, st);
  }

  /** A run of three whose group ends in a run of three: bold now, italics scheduled. */
  lemma TripleBranch(s: string, runs: seq<DelimRun>, st: TokState, c: char, g: seq<nat>)
    requires st.curRunIdx < |runs| && |g| >= 1 && g[0] == st.curRunIdx
    requires forall p :: 0 <= p < |g| ==> g[p] < |runs|
    requires runs[st.curRunIdx].length == 3 && runs[Last(g)].length == 3
    ensures EmphasisToken(s, runs, st, c, g) ==
            Emit(s, runs, Schedule(st, Token(Italics, [c])), Bold, [c, c])
  {
  }

  /** A current run shorter than three yields its own value. */
  lemma SingleBranch(s: string, runs: seq<DelimRun>, st: TokState, c: char, g: seq<nat>)
    requires st.curRunIdx < |runs| && |g| >= 1 && g[0] == st.curRunIdx
    requires forall p :: 0 <= p < |g| ==> g[p] < |runs|
    requires runs[st.curRunIdx].length != 3
    ensures EmphasisToken(s, runs, st, c, g) ==
            Emit(s, runs, st, GetTokenType(runs[st.curRunIdx].value), runs[st.curRunIdx].value)
  {
  }

  /** One returned token, then the rest of the stream. */
  lemma DrainStep(s: string, runs: seq<DelimRun>, st: TokState, t: Token, st': TokState)
    requires RunsValid(runs) && StateValid(runs, st)
    requires NextToken(s, runs, st) == (Emitted(t), st')
    ensures StateValid(runs, st') && Drain(s, runs, st) == Prepend(t, Drain(s, runs, st'))
  {
    NextTokenProgress(s, runs, st);
  }

  /**
   * A run of getNextToken calls: from the first state each call returns the
   * next token and the next state, and after the last one the call returns
   * null. The stream is exactly those tokens.
   */
  lemma {:induction false} DrainTrace(s: string, runs: seq<DelimRun>, states: seq<TokState>, tokens: seq<Token>)
    requires RunsValid(runs) && Trace(s, runs, states, tokens) && StateValid(runs, states[0])
    ensures Drain(s, runs, states[0]) == Finished(tokens)
    decreases |tokens|
  {
    if tokens == [] {
      DrainEnd(s, runs, states[0]);
    } else {
      DrainStep(s, runs, states[0], tokens[0], states[1]);
      TraceTail(s, runs, states, tokens);
      DrainTrace(s, runs, states[1..], tokens[1..]);
      assert Prepend(tokens[0], Finished(tokens[1..])) == Finished(tokens);
    }
  }

  /** Each call from states[k] returns tokens[k] and moves to states[k + 1]; the call from the last state returns null. */
  predicate Trace(s: string, runs: seq<DelimRun>, states: seq<TokState>, tokens: seq<Token>)
    requires RunsValid(runs)
  {
    |states| == |tokens| + 1 &&
    (forall k :: 0 <= k < |tokens| ==> NextToken(s, runs, states[k]) == (Emitted(tokens[k]), states[k + 1])) &&
    NextToken(s, runs, states[|tokens|]).0 == NoToken
  }

  /** The rest of a trace after its first call is a trace. */
  lemma TraceTail(s: string, runs: seq<DelimRun>, states: seq<TokState>, tokens: seq<Token>)
    requires RunsValid(runs) && Trace(s, runs, states, tokens) && tokens != []
    ensures Trace(s, runs, states[1..], tokens[1..])
  {
    forall k | 0 <= k < |tokens[1..]|
      ensures NextToken(s, runs, states[1..][k]) == (Emitted(tokens[1..][k]), states[1..][k + 1])
    {
      assert states[1..][k] == states[k + 1] && states[1..][k + 1] == states[k + 2];
    }
    assert states[1..][|tokens[1..]|] == states[|tokens|];
  }

  /** null ends the stream. */
  lemma DrainEnd(s: string, runs: seq<DelimRun>, st: TokState)
    requires RunsValid(runs) && StateValid(runs, st) && NextToken(s, runs, st).0 == NoToken
    ensures Drain(s, runs, st) == Finished([])
  {
  }

  /** An exception ends the stream. */
  lemma DrainThrow(s: string, runs: seq<DelimRun>, st: TokState, f: Failure)
    requires RunsValid(runs) && StateValid(runs, st) && NextToken(s, runs, st).0 == Thrown(f)
    ensures Drain(s, runs, st) == Failed([], f)
  {
  }

  /** A run of asterisks has the symbol "*". */
  lemma StarSymbol(r: DelimRun)
    requires |r.value| >= 1 && r.value[0] == '*'
    ensures GetTokenSymbol(r) == Some("*")
  {
    assert "*" <= r.value;
  }

  // ---------------------------------------------------------------------
  // "***hello***": bold around italics

  const Nested := "***hello***"
  const NestedOpen := DelimRun("***", Some(Open), Left, 0, 3, 3)
  const NestedClose := DelimRun("***", Some(Close), Right, 8, 11, 3)
  const NestedRuns := [NestedOpen, NestedClose]

  lemma NestedScan(punct: char -> bool)
    ensures Scan(Nested, punct) == [NestedOpen.(action := None), NestedClose.(action := None)]
  {
    var s := Nested;
    assert RunEnd(s, 0) == 3;
    assert RunEnd(s, 8) == 11;
    assert MakeRun(s, 0, 3, punct) == NestedOpen.(action := None);
    assert MakeRun(s, 8, 11, punct) == NestedClose.(action := None);
    ScanSkip(s, punct, 3, 8);
    ScanRunAt(s, punct, 0);
    ScanRunAt(s, punct, 8);
    assert ScanFrom(s, punct, 11) == [];
  }

  /** No backslash, and both runs are short enough to be kept. */
  lemma NestedKept(punct: char -> bool)
    ensures FilterRuns(Preprocess(Nested, Scan(Nested, punct))) ==
            [NestedOpen.(action := None), NestedClose.(action := None)]
  {
    var scanned := [NestedOpen.(action := None), NestedClose.(action := None)];
    NestedScan(punct);
    NestedNoBackslash();
    PreprocessNoBackslash(Nested, scanned);
    StarSymbol(scanned[0]);
    StarSymbol(scanned[1]);
    FilterKeepsAll(scanned);
  }

  lemma NestedNoBackslash()
    ensures forall j :: 0 <= j < |Nested| ==> Nested[j] != '\\'
  {
    forall j | 0 <= j < |Nested| ensures Nested[j] != '\\' {
      assert Nested[j] in "*helo";
    }
  }

  /** Both runs survive; the left-flanking one opens and the right-flanking one closes. */
  lemma NestedInitialRuns(punct: char -> bool)
    ensures InitialRuns(Nested, punct) == NestedRuns
  {
    NestedKept(punct);
    NestedAssigned();
  }

  lemma NestedAssigned()
    ensures AssignActions([NestedOpen.(action := None), NestedClose.(action := None)]) == NestedRuns
  {
    var scanned := [NestedOpen.(action := None), NestedClose.(action := None)];
    var half := [NestedOpen, NestedClose.(action := None)];
    assert AssignFrom(half, 1, [0]) == AssignFrom(NestedRuns, 2, [0]);
    assert AssignFrom(scanned, 0, []) == AssignFrom(half, 1, [0]);
  }

  /** The equivalence group of the opening run is both runs, three opening and three closing characters. */
  lemma NestedGroup()
    ensures RunsValid(NestedRuns) && EquivalenceGroup(NestedRuns, 0) == Some([0, 1])
  {
    StarSymbol(NestedOpen);
    StarSymbol(NestedClose);
    GroupStepStop(NestedRuns, "*", 1, [0], 3, 0, [0, 1], 3, 3);
    GroupStepGo(NestedRuns, "*", 0, [], 0, 0, [0], 3, 0);
  }

  const Nested1 := TokState(2, 0, true, ["**"], [Token(Italics, "*")])
  const Nested2 := TokState(3, 1, true, ["**", "*"], [])
  const Nested3 := TokState(8, 1, true, ["**", "*"], [])
  const Nested4 := TokState(9, 1, true, ["**"], [])
  const Nested5 := TokState(11, 1, true, ["**"], [])

  lemma NestedBranch1()
    ensures NextToken(Nested, NestedRuns, Initial) ==
            Emit(Nested, NestedRuns, Schedule(Initial, Token(Italics, "*")), Bold, "**")
  {
    NestedGroup();
    assert Nested[0] == '*';
    EmphasisBranch(Nested, NestedRuns, Initial, [0, 1]);
    assert SetBalanced(Initial, true) == Initial;
    assert Last([0, 1]) == 1;
    TripleBranch(Nested, NestedRuns, Initial, '*', [0, 1]);
    assert Initial.scheduled + [Token(Italics, "*")] == [Token(Italics, "*")];
  }

  /** A run of three that closes a run of three: bold first, italics scheduled, bold opens a context. */
  lemma NestedStep1()
    ensures NextToken(Nested, NestedRuns, Initial) == (Emitted(Token(Bold, "**")), Nested1)
  {
    NestedBranch1();
    FormatSymbolTypes();
    var st1 := Schedule(Initial, Token(Italics, "*"));
    assert st1 == TokState(0, 0, true, [], [Token(Italics, "*")]);
    assert Advance(st1, 2) == TokState(2, 0, true, [], [Token(Italics, "*")]);
    assert NewContext([], true, Bold, "**") == ["**"];
    assert CatchUp(NestedRuns, 2, 0) == 0;
  }

  /** The scheduled italics token comes next and opens the inner context. */
  lemma NestedStep2()
    ensures NextToken(Nested, NestedRuns, Nested1) == (Emitted(Token(Italics, "*")), Nested2)
  {
    NestedGroup();
    ScheduledBranch(Nested, NestedRuns, Nested1);
    assert NewContext(["**"], true, Italics, "*") == ["**", "*"];
    assert CatchUp(NestedRuns, 3, 0) == 1;
  }

  lemma NestedBranch3()
    ensures NextToken(Nested, NestedRuns, Nested2) == TextToken(Nested, NestedRuns, Nested2)
  {
    NestedGroup();
    PlainBranch(Nested, NestedRuns, Nested2);
  }

  /** Text runs up to the closing run. */
  lemma NestedStep3()
    ensures NextToken(Nested, NestedRuns, Nested2) == (Emitted(Token(Text, "hello")), Nested3)
  {
    NestedBranch3();
    assert HasRunAt(NestedRuns, 8);
    assert TextEnd(Nested, NestedRuns, true, 3) == 8;
    assert Nested[3..8] == "hello";
    assert NewContext(["**", "*"], true, Text, "hello") == ["**", "*"];
    assert CatchUp(NestedRuns, 8, 1) == 1;
  }

  lemma NestedBranch4()
    ensures NextToken(Nested, NestedRuns, Nested3) == ContextClose(Nested, NestedRuns, Nested3)
  {
    NestedGroup();
    assert Nested[8] == '*';
    CloseBranch(Nested, NestedRuns, Nested3);
  }

  lemma NestedValue4()
    ensures ContextClose(Nested, NestedRuns, Nested3) == (Emitted(Token(Italics, "*")), Nested4)
  {
    FormatSymbolTypes();
    assert Last(Nested3.context) == "*";
    var st1 := Advance(Nested3, 1);
    assert st1 == TokState(9, 1, true, ["**", "*"], []);
    NestedUpdate4();
  }

  /** After the inner closing asterisk the inner context is gone. */
  lemma NestedUpdate4()
    ensures UpdateState(Nested, NestedRuns, TokState(9, 1, true, ["**", "*"], []), Italics, "*") == Nested4
  {
    assert NewContext(["**", "*"], true, Italics, "*") == ["**"];
    assert CatchUp(NestedRuns, 9, 1) == 1;
  }

  /** The closing run closes the inner context first... */
  lemma NestedStep4()
    ensures NextToken(Nested, NestedRuns, Nested3) == (Emitted(Token(Italics, "*")), Nested4)
  {
    NestedBranch4();
    NestedValue4();
  }

  lemma NestedBranch5()
    ensures NextToken(Nested, NestedRuns, Nested4) == ContextClose(Nested, NestedRuns, Nested4)
  {
    NestedGroup();
    assert Nested[9] == '*';
    CloseBranch(Nested, NestedRuns, Nested4);
  }

  /** ...then the outer one, which brings the cursor to the end. */
  lemma NestedStep5()
    ensures NextToken(Nested, NestedRuns, Nested4) == (Emitted(Token(Bold, "**")), Nested5)
  {
    NestedBranch5();
    FormatSymbolTypes();
    assert Last(Nested4.context) == "**";
  }

  /** The calls of getNextToken on "***hello***", in order, and the null after them. */
  lemma NestedDrain()
    ensures Drain(Nested, NestedRuns, Initial) ==
      Finished([Token(Bold, "**"), Token(Italics, "*"), Token(Text, "hello"), Token(Italics, "*"), Token(Bold, "**")])
  {
    NestedGroup();
    NestedStep1();
    NestedStep2();
    NestedStep3();
    NestedStep4();
    NestedStep5();
    var states := [Initial, Nested1, Nested2, Nested3, Nested4, Nested5];
    var tokens := [Token(Bold, "**"), Token(Italics, "*"), Token(Text, "hello"), Token(Italics, "*"), Token(Bold, "**")];
    forall k | 0 <= k < |tokens| ensures NextToken(Nested, NestedRuns, states[k]) == (Emitted(tokens[k]), states[k + 1]) {
      if k == 0 {
        assert states[k] == Initial && states[k + 1] == Nested1;
      } else if k == 1 {
        assert states[k] == Nested1 && states[k + 1] == Nested2;
      } else if k == 2 {
        assert states[k] == Nested2 && states[k + 1] == Nested3;
      } else if k == 3 {
        assert states[k] == Nested3 && states[k + 1] == Nested4;
      } else {
        assert states[k] == Nested4 && states[k + 1] == Nested5;
      }
    }
    assert Trace(Nested, NestedRuns, states, tokens);
    DrainTrace(Nested, NestedRuns, states, tokens);
  }

  /** Test nestedBoldAndItalics: "**", "*", "hello", "*", "**". */
  lemma NestedTokens(punct: char -> bool)
    ensures Tokenize(Nested, punct) ==
      Finished([Token(Bold, "**"), Token(Italics, "*"), Token(Text, "hello"), Token(Italics, "*"), Token(Bold, "**")])
  {
    NestedInitialRuns(punct);
    TokenizeWith(Nested, punct, NestedRuns);
    NestedDrain();
  }

  /** The stream of a string is the drained stream of its initial runs. */
  lemma TokenizeWith(s: string, punct: char -> bool, runs: seq<DelimRun>)
    requires InitialRuns(s, punct) == runs
    ensures RunsValid(runs) && Tokenize(s, punct) == Drain(s, runs, Initial)
  {
    KeptRunsValid(s, runs);
  }

  // ---------------------------------------------------------------------
  // Backslashes: "\s", "\" and "\*"

  const BackslashLetter := "\\s"
  const LoneBackslash := "\\"
  const EscapedStar := "\\*"

  /** Test escape: a backslash before a letter is kept, with the letter, as text. */
  lemma BackslashLetterTokens(punct: char -> bool)
    ensures Tokenize(BackslashLetter, punct) == Finished([Token(Text, "\\s")])
  {
    var s := BackslashLetter;
    NoDelimNoRuns(s, punct);
    TokenizeWith(s, punct, []);
    BackslashLetterStep();
    DrainLast(s, [], Initial, Token(Text, s), TokState(2, 0, true, [], []));
  }

  lemma BackslashLetterStep()
    ensures NextToken(BackslashLetter, [], Initial) == (Emitted(Token(Text, "\\s")), TokState(2, 0, true, [], []))
  {
    var s := BackslashLetter;
    assert NextToken(s, [], Initial) == EscapeToken(s, [], Initial);
    assert !IsAsciiPunctuation(s[1]) && [s[0], s[1]] == s;
  }

  /** Test escape: a backslash at the end of the string is a text token of its own. */
  lemma LoneBackslashTokens(punct: char -> bool)
    ensures Tokenize(LoneBackslash, punct) == Finished([Token(Text, "\\")])
  {
    var s := LoneBackslash;
    NoDelimNoRuns(s, punct);
    TokenizeWith(s, punct, []);
    var r := NextToken(s, [], Initial);
    assert r == EscapeToken(s, [], Initial);
    assert [s[0]] == s;
    DrainLast(s, [], Initial, Token(Text, s), r.1);
  }

  /** The only run of "\*" is the asterisk. */
  lemma EscapedStarScan(punct: char -> bool)
    ensures Scan(EscapedStar, punct) == [MakeRun(EscapedStar, 1, 2, punct)]
  {
    var s := EscapedStar;
    assert RunEnd(s, 1) == 2;
    ScanSkip(s, punct, 0, 1);
    ScanRunAt(s, punct, 1);
    assert ScanFrom(s, punct, 2) == [];
  }

  /** The backslash escapes the asterisk, whose one-character run is deleted: no runs are left. */
  lemma EscapedStarRuns(punct: char -> bool)
    ensures InitialRuns(EscapedStar, punct) == []
  {
    var s := EscapedStar;
    EscapedStarScan(punct);
    OneEscape(s, Scan(s, punct), 0, 1, 0);
  }

  /** Test escape: an escaped asterisk is the asterisk alone, as text. */
  lemma EscapedStarTokens(punct: char -> bool)
    ensures Tokenize(EscapedStar, punct) == Finished([Token(Text, "*")])
  {
    var s := EscapedStar;
    EscapedStarRuns(punct);
    TokenizeWith(s, punct, []);
    var r := NextToken(s, [], Initial);
    assert r == EscapeToken(s, [], Initial);
    assert IsAsciiPunctuation(s[1]) && [s[1]] == "*";
    DrainLast(s, [], Initial, Token(Text, "*"), r.1);
  }

  // ---------------------------------------------------------------------
  // "**1*": unbalanced runs degrade to text

  const Unbalanced := "**1*"
  const UnbalancedOpen := DelimRun("**", Some(Open), Left, 0, 2, 2)
  const UnbalancedClose := DelimRun("*", Some(Close), Right, 3, 4, 1)
  const UnbalancedRuns := [UnbalancedOpen, UnbalancedClose]

  /** The two runs: "**" after the start of the string is left-flanking, "*" before its end right-flanking. */
  lemma UnbalancedScan(punct: char -> bool)
    ensures Scan(Unbalanced, punct) == [UnbalancedOpen.(action := None), UnbalancedClose.(action := None)]
  {
    var s := Unbalanced;
    assert RunEnd(s, 0) == 2;
    assert RunEnd(s, 3) == 4;
    assert MakeRun(s, 0, 2, punct) == UnbalancedOpen.(action := None);
    assert MakeRun(s, 3, 4, punct) == UnbalancedClose.(action := None);
    ScanRunAt(s, punct, 0);
    ScanSkip(s, punct, 2, 3);
    ScanRunAt(s, punct, 3);
    assert ScanFrom(s, punct, 4) == [];
  }

  lemma UnbalancedNoBackslash()
    ensures forall j :: 0 <= j < |Unbalanced| ==> Unbalanced[j] != '\\'
  {
    forall j | 0 <= j < |Unbalanced| ensures Unbalanced[j] != '\\' {
      assert Unbalanced[j] in "*1";
    }
  }

  /** No backslash, and both runs are short enough to be kept. */
  lemma UnbalancedKept(punct: char -> bool)
    ensures FilterRuns(Preprocess(Unbalanced, Scan(Unbalanced, punct))) ==
            [UnbalancedOpen.(action := None), UnbalancedClose.(action := None)]
  {
    var scanned := [UnbalancedOpen.(action := None), UnbalancedClose.(action := None)];
    UnbalancedScan(punct);
    UnbalancedNoBackslash();
    PreprocessNoBackslash(Unbalanced, scanned);
    StarSymbol(scanned[0]);
    StarSymbol(scanned[1]);
    FilterKeepsAll(scanned);
  }

  lemma UnbalancedAssigned()
    ensures AssignActions([UnbalancedOpen.(action := None), UnbalancedClose.(action := None)]) == UnbalancedRuns
  {
    var scanned := [UnbalancedOpen.(action := None), UnbalancedClose.(action := None)];
    var half := [UnbalancedOpen, UnbalancedClose.(action := None)];
    assert AssignFrom(half, 1, [0]) == AssignFrom(UnbalancedRuns, 2, [0]);
    assert AssignFrom(scanned, 0, []) == AssignFrom(half, 1, [0]);
  }

  /** Both runs are kept; the left-flanking one opens and the right-flanking one closes. */
  lemma UnbalancedInitialRuns(punct: char -> bool)
    ensures InitialRuns(Unbalanced, punct) == UnbalancedRuns
  {
    UnbalancedKept(punct);
    UnbalancedAssigned();
  }

  /** Two opening characters against one closing one never balance: no group. */
  lemma UnbalancedGroup()
    ensures RunsValid(UnbalancedRuns) && EquivalenceGroup(UnbalancedRuns, 0) == None
  {
    StarSymbol(UnbalancedOpen);
    StarSymbol(UnbalancedClose);
    GroupStepStop(UnbalancedRuns, "*", 1, [0], 2, 0, [0, 1], 2, 1);
    GroupStepGo(UnbalancedRuns, "*", 0, [], 0, 0, [0], 2, 0);
  }

  /** Without a group the input is unbalanced, and text then stops only at a backslash: all of it is one token. */
  lemma UnbalancedStep()
    ensures NextToken(Unbalanced, UnbalancedRuns, Initial) ==
            (Emitted(Token(Text, Unbalanced)), TokState(4, 0, false, [], []))
  {
    var s := Unbalanced;
    UnbalancedGroup();
    assert s[0] == '*';
    StarDispatch(s, UnbalancedRuns, Initial);
    TextEndNoStop(s, UnbalancedRuns, false, 0);
    assert s[0..4] == s;
  }

  /** Test miscellaneous: "**1*" is the single text token "**1*". */
  lemma UnbalancedTokens(punct: char -> bool)
    ensures Tokenize(Unbalanced, punct) == Finished([Token(Text, "**1*")])
  {
    UnbalancedInitialRuns(punct);
    TokenizeWith(Unbalanced, punct, UnbalancedRuns);
    UnbalancedDrain();
  }

  lemma UnbalancedDrain()
    ensures RunsValid(UnbalancedRuns) &&
            Drain(Unbalanced, UnbalancedRuns, Initial) == Finished([Token(Text, "**1*")])
  {
    UnbalancedGroup();
    UnbalancedStep();
    DrainLast(Unbalanced, UnbalancedRuns, Initial, Token(Text, Unbalanced), TokState(4, 0, false, [], []));
  }

  // ---------------------------------------------------------------------
  // Lone tildes

  const TildeText := "~just some text~"
  const TildeStart := "~just some text"

  /** The only delimiters are single tildes, and there is no backslash. */
  lemma TildeTextShape(s: string)
    requires s == TildeText || s == TildeStart
    ensures forall i :: 0 <= i < |s| ==> s[i] != '\\'
    ensures forall i :: 0 <= i < |s| && IsDelimChar(s[i]) ==>
              (s[i] == '~' || s[i] == '=') && (i + 1 == |s| || s[i + 1] != s[i])
  {
    forall i | 0 <= i < |s| ensures s[i] != '\\' && (IsDelimChar(s[i]) ==> s[i] == '~' && (i == 0 || i == 15)) {
      assert s[i] in "~just omex";
    }
  }

  /** Test normalText: a single tilde opens nothing, and the whole line is text. */
  lemma TildeTextTokens(punct: char -> bool)
    ensures Tokenize(TildeText, punct) == Finished([Token(Text, "~just some text~")])
    ensures Tokenize(TildeStart, punct) == Finished([Token(Text, "~just some text")])
  {
    TildeTextShape(TildeText);
    LoneDelimsNoRuns(TildeText, punct);
    NoRunsText(TildeText, punct);
    TildeTextShape(TildeStart);
    LoneDelimsNoRuns(TildeStart, punct);
    NoRunsText(TildeStart, punct);
  }

  // ---------------------------------------------------------------------
  // "\a*b*": the escape counter outlives ordinary characters

  const LetterEscape := "\\a*b*"
  const LetterEscapeClose := DelimRun("*", Some(Close), Right, 4, 5, 1)

  /** The two runs of "\a*b*" are the two asterisks. */
  lemma LetterEscapeScan(punct: char -> bool)
    ensures Scan(LetterEscape, punct) == [MakeRun(LetterEscape, 2, 3, punct), MakeRun(LetterEscape, 4, 5, punct)]
  {
    var s := LetterEscape;
    assert RunEnd(s, 2) == 3;
    assert RunEnd(s, 4) == 5;
    ScanSkip(s, punct, 0, 2);
    ScanRunAt(s, punct, 2);
    ScanSkip(s, punct, 3, 4);
    ScanRunAt(s, punct, 4);
    assert ScanFrom(s, punct, 5) == [];
  }

  lemma LetterEscapeNoOtherBackslash()
    ensures forall j :: 0 <= j < |LetterEscape| && j != 0 ==> LetterEscape[j] != '\\'
  {
    forall j | 0 <= j < |LetterEscape| && j != 0 ensures LetterEscape[j] != '\\' {
      assert LetterEscape[j] in "a*b";
    }
  }

  /**
   * The backslash is two characters before the first asterisk, yet the
   * letter between them does not reset the count: the first run is deleted
   * as escaped, and only the last asterisk is left.
   */
  lemma LetterEscapePreprocessed(punct: char -> bool)
    ensures Preprocess(LetterEscape, Scan(LetterEscape, punct)) == [LetterEscapeClose.(action := None)]
  {
    var s := LetterEscape;
    var scanned := [MakeRun(s, 2, 3, punct), MakeRun(s, 4, 5, punct)];
    LetterEscapeScan(punct);
    LetterEscapeNoOtherBackslash();
    OneEscape(s, scanned, 0, 2, 0);
    assert scanned[..0] + scanned[1..] == [MakeRun(s, 4, 5, punct)];
    LetterEscapeLastRun(punct);
  }

  /** The last asterisk follows a letter and ends the string: right-flanking only. */
  lemma LetterEscapeLastRun(punct: char -> bool)
    ensures MakeRun(LetterEscape, 4, 5, punct) == LetterEscapeClose.(action := None)
  {
  }

  lemma LetterEscapeKept(punct: char -> bool)
    ensures FilterRuns(Preprocess(LetterEscape, Scan(LetterEscape, punct))) == [LetterEscapeClose.(action := None)]
  {
    LetterEscapePreprocessed(punct);
    StarSymbol(LetterEscapeClose.(action := None));
    FilterKeepsAll([LetterEscapeClose.(action := None)]);
  }

  lemma LetterEscapeAssigned()
    ensures AssignActions([LetterEscapeClose.(action := None)]) == [LetterEscapeClose]
  {
    assert AssignFrom([LetterEscapeClose.(action := None)], 0, []) == AssignFrom([LetterEscapeClose], 1, []);
  }

  /** The remaining asterisk is right-flanking, so it closes. */
  lemma LetterEscapeRuns(punct: char -> bool)
    ensures InitialRuns(LetterEscape, punct) == [LetterEscapeClose]
  {
    LetterEscapeKept(punct);
    LetterEscapeAssigned();
  }

  const LetterEscape1 := TokState(2, 0, true, [], [])

  /** The backslash before a letter is text with the letter. */
  lemma LetterEscapeStep1()
    ensures NextToken(LetterEscape, [LetterEscapeClose], Initial) == (Emitted(Token(Text, "\\a")), LetterEscape1)
  {
    var s := LetterEscape;
    var r := NextToken(s, [LetterEscapeClose], Initial);
    assert r == EscapeToken(s, [LetterEscapeClose], Initial);
    assert !IsAsciiPunctuation(s[1]) && [s[0], s[1]] == "\\a";
    assert CatchUp([LetterEscapeClose], 2, 0) == 0;
  }

  /** The lone closing run has no group: the input is unbalanced and the rest is one text token. */
  lemma LetterEscapeStep2()
    ensures NextToken(LetterEscape, [LetterEscapeClose], LetterEscape1).0 == Emitted(Token(Text, "*b*"))
    ensures NextToken(LetterEscape, [LetterEscapeClose], LetterEscape1).1.cursor == |LetterEscape|
  {
    var s := LetterEscape;
    var runs := [LetterEscapeClose];
    assert s[2] == '*';
    StarDispatch(s, runs, LetterEscape1);
    assert EquivalenceGroup(runs, 0) == None;
    forall j | 2 <= j < |s| ensures !StopsText(s, runs, false, j) {
      assert s[j] in "*b";
    }
    TextEndNoStop(s, runs, false, 2);
    assert s[2..5] == "*b*";
  }

  /** Test escape, as written: "\a*b*" is "\a" then "*b*", the first asterisk taken as escaped. */
  lemma LetterEscapeTokens(punct: char -> bool)
    ensures Tokenize(LetterEscape, punct) == Finished([Token(Text, "\\a"), Token(Text, "*b*")])
  {
    LetterEscapeRuns(punct);
    TokenizeWith(LetterEscape, punct, [LetterEscapeClose]);
    LetterEscapeDrain();
  }

  lemma LetterEscapeDrain()
    ensures RunsValid([LetterEscapeClose]) &&
            Drain(LetterEscape, [LetterEscapeClose], Initial) == Finished([Token(Text, "\\a"), Token(Text, "*b*")])
  {
    var s := LetterEscape;
    var runs := [LetterEscapeClose];
    StarSymbol(LetterEscapeClose);
    LetterEscapeStep1();
    DrainStep(s, runs, Initial, Token(Text, "\\a"), LetterEscape1);
    LetterEscapeStep2();
    var r := NextToken(s, runs, LetterEscape1);
    DrainLast(s, runs, LetterEscape1, Token(Text, "*b*"), r.1);
  }

  // ---------------------------------------------------------------------
  // "*a*=": a '=' after the last run

  const PastLast := "*a*="
  const PastLastOpen := DelimRun("*", Some(Open), Left, 0, 1, 1)
  const PastLastClose := DelimRun("*", Some(Close), Right, 2, 3, 1)
  const PastLastRuns := [PastLastOpen, PastLastClose]

  /**
   * The three runs of "*a*=". Whether the second asterisk can also open
   * depends on '=' being punctuation, which it is in Java's classification
   * (a math symbol).
   */
  lemma PastLastScan(punct: char -> bool)
    requires AgreesOnAscii(punct)
    ensures Scan(PastLast, punct) ==
      [PastLastOpen.(action := None), PastLastClose.(action := None), MakeRun(PastLast, 3, 4, punct)]
  {
    var s := PastLast;
    assert RunEnd(s, 0) == 1;
    assert RunEnd(s, 2) == 3;
    assert RunEnd(s, 3) == 4;
    PastLastFlanks(punct);
    ScanRunAt(s, punct, 0);
    ScanSkip(s, punct, 1, 2);
    ScanRunAt(s, punct, 2);
    ScanRunAt(s, punct, 3);
    assert ScanFrom(s, punct, 4) == [];
  }

  lemma PastLastNoBackslash()
    ensures forall j :: 0 <= j < |PastLast| ==> PastLast[j] != '\\'
  {
    forall j | 0 <= j < |PastLast| ensures PastLast[j] != '\\' {
      assert PastLast[j] in "*a=";
    }
  }

  /** The first asterisk opens before a letter; the second, between a letter and '=', only closes. */
  lemma PastLastFlanks(punct: char -> bool)
    requires AgreesOnAscii(punct)
    ensures MakeRun(PastLast, 0, 1, punct) == PastLastOpen.(action := None)
    ensures MakeRun(PastLast, 2, 3, punct) == PastLastClose.(action := None)
  {
    assert punct('=') && !punct('a');
  }

  /** The asterisks are kept and the lone '=' is dropped. */
  lemma PastLastFiltered(punct: char -> bool)
    ensures var scanned := [PastLastOpen.(action := None), PastLastClose.(action := None), MakeRun(PastLast, 3, 4, punct)];
            FilterRuns(scanned) == scanned[..2]
  {
    var eq := MakeRun(PastLast, 3, 4, punct);
    var scanned := [PastLastOpen.(action := None), PastLastClose.(action := None), eq];
    StarSymbol(scanned[0]);
    StarSymbol(scanned[1]);
    assert eq.value == "=" == Repeat('=', 1);
    UniformSymbol(eq.value, '=');
    assert FilterRuns([eq]) == [];
    assert scanned[2..] == [eq];
    assert FilterRuns(scanned[1..]) == [scanned[1]];
  }

  /** No backslash, so preprocessing changes nothing. */
  lemma PastLastPreprocessed(punct: char -> bool)
    requires AgreesOnAscii(punct)
    ensures Preprocess(PastLast, Scan(PastLast, punct)) ==
      [PastLastOpen.(action := None), PastLastClose.(action := None), MakeRun(PastLast, 3, 4, punct)]
  {
    PastLastScan(punct);
    PastLastNoBackslash();
    PreprocessNoBackslash(PastLast, Scan(PastLast, punct));
  }

  /** Filtering keeps the asterisks. */
  lemma PastLastKept(punct: char -> bool)
    requires AgreesOnAscii(punct)
    ensures FilterRuns(Preprocess(PastLast, Scan(PastLast, punct))) ==
            [PastLastOpen.(action := None), PastLastClose.(action := None)]
  {
    PastLastPreprocessed(punct);
    PastLastFiltered(punct);
  }

  lemma PastLastAssigned()
    ensures AssignActions([PastLastOpen.(action := None), PastLastClose.(action := None)]) == PastLastRuns
  {
    var scanned := [PastLastOpen.(action := None), PastLastClose.(action := None)];
    var half := [PastLastOpen, PastLastClose.(action := None)];
    assert AssignFrom(half, 1, [0]) == AssignFrom(PastLastRuns, 2, [0]);
    assert AssignFrom(scanned, 0, []) == AssignFrom(half, 1, [0]);
  }

  lemma PastLastInitialRuns(punct: char -> bool)
    requires AgreesOnAscii(punct)
    ensures InitialRuns(PastLast, punct) == PastLastRuns
  {
    PastLastKept(punct);
    PastLastAssigned();
  }

  /** The two asterisks balance. */
  lemma PastLastGroup()
    ensures RunsValid(PastLastRuns) && EquivalenceGroup(PastLastRuns, 0) == Some([0, 1])
  {
    StarSymbol(PastLastOpen);
    StarSymbol(PastLastClose);
    GroupStepStop(PastLastRuns, "*", 1, [0], 1, 0, [0, 1], 1, 1);
    GroupStepGo(PastLastRuns, "*", 0, [], 0, 0, [0], 1, 0);
  }

  const PastLast1 := TokState(1, 1, true, ["*"], [])
  const PastLast2 := TokState(2, 1, true, ["*"], [])
  const PastLast3 := TokState(3, 2, true, [], [])

  lemma PastLastStep1()
    ensures NextToken(PastLast, PastLastRuns, Initial) == (Emitted(Token(Italics, "*")), PastLast1)
  {
    PastLastGroup();
    assert PastLast[0] == '*';
    EmphasisBranch(PastLast, PastLastRuns, Initial, [0, 1]);
    assert SetBalanced(Initial, true) == Initial;
    SingleBranch(PastLast, PastLastRuns, Initial, '*', [0, 1]);
    FormatSymbolTypes();
    assert NewContext([], true, Italics, "*") == ["*"];
    assert CatchUp(PastLastRuns, 1, 0) == 1;
  }

  lemma PastLastStep2()
    ensures NextToken(PastLast, PastLastRuns, PastLast1) == (Emitted(Token(Text, "a")), PastLast2)
  {
    PastLastGroup();
    PlainBranch(PastLast, PastLastRuns, PastLast1);
    assert HasRunAt(PastLastRuns, 2);
    assert TextEnd(PastLast, PastLastRuns, true, 1) == 2;
    assert PastLast[1..2] == "a";
    assert NewContext(["*"], true, Text, "a") == ["*"];
    assert CatchUp(PastLastRuns, 2, 1) == 1;
  }

  lemma PastLastStep3()
    ensures NextToken(PastLast, PastLastRuns, PastLast2) == (Emitted(Token(Italics, "*")), PastLast3)
  {
    PastLastGroup();
    assert PastLast[2] == '*';
    CloseBranch(PastLast, PastLastRuns, PastLast2);
    FormatSymbolTypes();
    assert Last(PastLast2.context) == "*";
    assert Advance(PastLast2, 1) == TokState(3, 1, true, ["*"], []);
    assert NewContext(["*"], true, Italics, "*") == [];
    assert CatchUp(PastLastRuns, 3, 1) == 2;
  }

  /** The '=' is not a run, but the '=' case reads the run at the index, which is past the last one. */
  lemma PastLastStep4()
    ensures RunsValid(PastLastRuns) && NextToken(PastLast, PastLastRuns, PastLast3) == (Thrown(IndexOutOfBounds), PastLast3)
  {
    PastLastGroup();
    assert PastLast[3] == '=';
    PastLastRunBranch(PastLast, PastLastRuns, PastLast3);
  }

  /**
   * "*a*=": italics around "a", then the lone '=', whose run was dropped,
   * makes getNextToken throw.
   */
  lemma PastLastTokens(punct: char -> bool)
    requires AgreesOnAscii(punct)
    ensures Tokenize(PastLast, punct) ==
      Failed([Token(Italics, "*"), Token(Text, "a"), Token(Italics, "*")], IndexOutOfBounds)
  {
    PastLastInitialRuns(punct);
    TokenizeWith(PastLast, punct, PastLastRuns);
    PastLastDrain();
  }

  lemma PastLastDrain()
    ensures RunsValid(PastLastRuns) &&
            Drain(PastLast, PastLastRuns, Initial) ==
              Failed([Token(Italics, "*"), Token(Text, "a"), Token(Italics, "*")], IndexOutOfBounds)
  {
    var s := PastLast;
    var runs := PastLastRuns;
    PastLastStep1();
    DrainStep(s, runs, Initial, Token(Italics, "*"), PastLast1);
    PastLastStep2();
    DrainStep(s, runs, PastLast1, Token(Text, "a"), PastLast2);
    PastLastStep3();
    DrainStep(s, runs, PastLast2, Token(Italics, "*"), PastLast3);
    PastLastStep4();
    DrainThrow(s, runs, PastLast3, IndexOutOfBounds);
  }
}
