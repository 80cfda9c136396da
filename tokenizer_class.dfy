/**
 * The Tokenizer class of Tokenizer.java: its fields, its constructor (scan,
 * escape preprocessing, filtering, action assignment) and getNextToken with
 * the private methods it calls. Each method is proved to agree with the
 * functions of Tokenization, DelimRuns and RunPasses, where the properties
 * of the tokenizer are proved.
 */
module TokenizerClass {
  import opened Wrappers
  import opened TokenTypes
  import opened TokenizerUtils
  import opened DelimRuns
  import opened RunPasses
  import opened Tokenization

  class Tokenizer {
    /** The input string. */
    const str: string
    /** The delimiter runs, preprocessed, filtered and given their actions. */
    var runs: seq<DelimRun>
    var cursor: nat
    var curRunIdx: nat
    var balanced: bool
    /** The values of the open formatting contexts, innermost last. */
    var contextStack: seq<string>
    /** Tokens to return before reading on, the next one last. */
    var scheduledTokens: seq<Token>

    /** The fields that change between calls of getNextToken, as a value. */
    function State(): TokState
      reads this
    {
      TokState(cursor, curRunIdx, balanced, contextStack, scheduledTokens)
    }

    /** What holds between calls: the runs are usable and the state is valid. */
    predicate Valid()
      reads this
    {
      RunsValid(runs) && StateValid(runs, State())
    }

    /**
     * new Tokenizer(string): the maximal runs of the string with their flank
     * directions, escape-preprocessed, filtered and given their actions; the
     * cursor at the start, balanced, no context and nothing scheduled.
     */
    constructor(s: string, punct: char -> bool)
      ensures str == s && runs == InitialRuns(s, punct) && State() == Initial
      ensures Valid()
    {
      str := s;
      runs := Scan(s, punct);
      cursor := 0;
      curRunIdx := 0;
      balanced := true;
      contextStack := [];
      scheduledTokens := [];
      new;
      InitialRunsPasses(s, punct);
      PreprocessEscapeChars();
      runs := FilterRuns(runs);
      AssignActionTypes();
      InitialValid(s, punct);
    }

    /**
     * preprocessEscapeChars: an odd number of backslashes before a delimiter
     * deletes a run of one character or takes the first character off a
     * longer run and skips the rest of it; the count is reset only then.
     * It requires that the loop never looks for a run past the end of the
     * list (runs.get would throw), which holds for the runs of the scan.
     */
    method PreprocessEscapeChars()
      requires AllWellFormed(runs) && (|runs| == 0 || EscapeScan(str, 0, 0, 0, runs).Some?)
      modifies this
      ensures runs == if |old(runs)| == 0 then old(runs) else EscapeScan(str, 0, 0, 0, old(runs)).value
      ensures unchanged(this`cursor, this`curRunIdx, this`balanced, this`contextStack, this`scheduledTokens)
    {
      if |runs| == 0 {
        return;
      }
      ghost var result := EscapeScan(str, 0, 0, 0, runs).value;
      var rs := runs;
      var escapeCount: nat := 0;
      var runIdx: nat := 0;
      var i: nat := 0;
      var n := |str|;
      while i < n
        invariant EscapeLoop(str, i, escapeCount, runIdx, rs, result)
        invariant unchanged(this)
        decreases n - i
      {
        ghost var runIdx0, count0 := runIdx, escapeCount;
        if runIdx < |rs| && i >= rs[runIdx].end {
          runIdx := runIdx + 1;
        }
        assert runIdx == CaughtUp(i, runIdx0, rs);
        var c := str[i];
        if c == '\\' {
          LoopNoFire(str, i, count0, runIdx0, rs, result, count0 + 1);
          escapeCount := escapeCount + 1;
          i := i + 1;
        } else if !IsDelimChar(c) || escapeCount % 2 == 0 {
          LoopNoFire(str, i, count0, runIdx0, rs, result, count0);
          i := i + 1;
        } else {
          LoopHasRun(str, i, count0, runIdx0, rs, result);
          var run := rs[runIdx];
          if run.length == 1 {
            LoopRemove(str, i, count0, runIdx0, rs, result, runIdx);
            rs := rs[..runIdx] + rs[runIdx + 1..];
            i := i + 1;
          } else {
            var shrunk := DropFirst(run);
            LoopShrink(str, i, count0, runIdx0, rs, result, runIdx, shrunk);
            rs := rs[runIdx := shrunk];
            i := i + shrunk.length + 1;
          }
          escapeCount := 0;
        }
      }
      LoopEnd(str, i, escapeCount, runIdx, rs, result);
      runs := rs;
    }

    /**
     * assignActionTypes: LEFT runs open and join the open list, RIGHT runs
     * close, a BOTH run closes and takes the first open run with its value
     * off the list or else opens, NEITHER runs are left alone.
     */
    method AssignActionTypes()
      modifies this
      ensures runs == AssignActions(old(runs))
      ensures unchanged(this`cursor, this`curRunIdx, this`balanced, this`contextStack, this`scheduledTokens)
    {
      var rs := runs;
      var openRuns: seq<nat> := [];
      var i := 0;
      while i < |rs|
        invariant i <= |rs| == |runs| && OpenIndices(rs, openRuns)
        invariant AssignFrom(rs, i, openRuns) == AssignActions(runs)
        invariant unchanged(this)
      {
        var run := rs[i];
        match run.flank {
          case Left =>
            rs := rs[i := WithAction(run, Open)];
            openRuns := openRuns + [i];
          case Right =>
            rs := rs[i := WithAction(run, Close)];
          case Both =>
            var m := FirstMatch(rs, openRuns, run.value);
            if m.Some? {
              rs := rs[i := WithAction(run, Close)];
              openRuns := openRuns[..m.value] + openRuns[m.value + 1..];
            } else {
              rs := rs[i := WithAction(run, Open)];
              openRuns := openRuns + [i];
            }
          case Neither =>
        }
        i := i + 1;
      }
      runs := rs;
    }

    /** hasMoreTokens: the cursor has not reached the end of the string. */
    predicate HasMoreTokens()
      reads this
    {
      cursor != |str|
    }

    /** getRunAtPos: the first run that covers pos, if any. */
    method GetRunAtPos(pos: nat) returns (r: Option<DelimRun>)
      ensures r.Some? <==> HasRunAt(runs, pos)
      ensures r.Some? ==> r.value in runs && r.value.start <= pos < r.value.end
    {
      var k := 0;
      while k < |runs|
        invariant k <= |runs|
        invariant forall j :: 0 <= j < k ==> !(runs[j].start <= pos < runs[j].end)
      {
        if runs[k].start <= pos < runs[k].end {
          return Some(runs[k]);
        }
        k := k + 1;
      }
      return None;
    }

    /**
     * getRunEquivalenceGroup: null when the current run is the last one (or
     * past it); otherwise the do-while loop collects the runs with the
     * current run's symbol until there are two or more of them with equal
     * opening and closing lengths, and gives null when the list ends first.
     */
    method GetRunEquivalenceGroup() returns (g: Option<seq<nat>>)
      requires RunsValid(runs)
      ensures curRunIdx + 1 >= |runs| ==> g.None?
      ensures curRunIdx + 1 < |runs| ==> g == EquivalenceGroup(runs, curRunIdx)
    {
      if curRunIdx + 1 >= |runs| {
        return None;
      }
      var group: seq<nat> := [];
      var openCount: nat := 0;
      var closeCount: nat := 0;
      var i := curRunIdx;
      var sym := GetTokenSymbol(runs[curRunIdx]).value;
      ghost var target := EquivalenceGroup(runs, curRunIdx);
      var more := true;
      while more
        invariant curRunIdx <= i <= |runs|
        invariant more ==> i < |runs| && GroupFrom(runs, sym, i, group, openCount, closeCount) == target
        invariant !more ==> target == if i == |runs| && openCount != closeCount then None else Some(group)
        decreases |runs| - i, more
      {
        var run := runs[i];
        if GetTokenSymbol(run) == Some(sym) {
          if run.action == Some(Open) {
            openCount := openCount + run.length;
          }
          if run.action == Some(Close) {
            closeCount := closeCount + run.length;
          }
          group := group + [i];
        }
        i := i + 1;
        more := i < |runs| && (|group| < 2 || openCount != closeCount);
      }
      if i == |runs| && openCount != closeCount {
        return None;
      }
      return Some(group);
    }

    /**
     * getTextTokenValue: the characters from the cursor up to the first
     * backslash, or the first delimiter covered by a run while balanced.
     */
    method GetTextTokenValue() returns (value: string)
      requires cursor <= |str|
      ensures value == str[cursor..TextEnd(str, runs, balanced, cursor)]
    {
      var slicePos := 0;
      var i := cursor;
      while i < |str|
        invariant cursor <= i <= |str| && slicePos == i - cursor
        invariant TextEnd(str, runs, balanced, i) == TextEnd(str, runs, balanced, cursor)
      {
        var c := str[i];
        var atRun := GetRunAtPos(i);
        if c == '\\' || (IsDelimChar(c) && balanced && atRun.Some?) {
          break;
        }
        slicePos := slicePos + 1;
        i := i + 1;
      }
      return str[cursor..cursor + slicePos];
    }

    /**
     * updateState: unless the cursor is at the end, a token equal to the
     * innermost context closes it, a format token opens one while balanced,
     * and the run index catches up with the cursor.
     */
    method UpdateState(tokenType: TokenType, value: string)
      modifies this`contextStack, this`curRunIdx
      ensures State() == Tokenization.UpdateState(str, runs, old(State()), tokenType, value)
    {
      if !HasMoreTokens() {
        return;
      }
      if |contextStack| != 0 && value == Last(contextStack) {
        contextStack := DropLast(contextStack);
      } else if balanced && IsFormatToken(tokenType) {
        contextStack := contextStack + [value];
      }
      CatchUpRunIdx();
    }

    /** The loop of updateState that moves the run index past the runs behind the cursor. */
    method CatchUpRunIdx()
      modifies this`curRunIdx
      ensures curRunIdx == CatchUp(runs, cursor, old(curRunIdx))
    {
      while curRunIdx < |runs| && cursor >= runs[curRunIdx].end
        invariant CatchUp(runs, cursor, curRunIdx) == CatchUp(runs, cursor, old(curRunIdx))
        decreases |runs| - curRunIdx
      {
        curRunIdx := curRunIdx + 1;
      }
    }

    /** Move the cursor past the token, update the state and hand the token back. */
    method EmitToken(tokenType: TokenType, value: string) returns (out: Outcome)
      modifies this
      ensures unchanged(this`runs)
      ensures (out, State()) == Emit(str, runs, old(State()), tokenType, value)
    {
      cursor := cursor + |value|;
      UpdateState(tokenType, value);
      return Emitted(Token(tokenType, value));
    }

    /**
     * getNextToken: null at the end of the string; a scheduled token first;
     * then by the character at the cursor an escape, a highlight or
     * strikethrough, an emphasis token, a context close or text. An
     * exception of the Java code is returned as Thrown with the state
     * unchanged.
     */
    method GetNextToken() returns (out: Outcome)
      requires Valid()
      modifies this
      ensures unchanged(this`runs)
      ensures (out, State()) == NextToken(str, runs, old(State()))
      ensures Valid()
      ensures out.NoToken? <==> old(cursor) == |str|
      ensures out.Emitted? ==> cursor > old(cursor) && |out.token.value| >= 1 && WellTyped(out.token)
    {
      ghost var st := State();
      NextTokenProgress(str, runs, st);
      NoTokenIffAtEnd(str, runs, st);
      if !HasMoreTokens() {
        return NoToken;
      }
      if |scheduledTokens| != 0 {
        var token := Last(scheduledTokens);
        scheduledTokens := DropLast(scheduledTokens);
        out := EmitToken(token.tokenType, token.value);
        return;
      }
      out := ReadAtCursor();
    }

    /** The part of getNextToken that reads the character at the cursor. */
    method ReadAtCursor() returns (out: Outcome)
      requires RunsValid(runs) && cursor != |str| && |scheduledTokens| == 0
      modifies this
      ensures unchanged(this`runs)
      ensures (out, State()) == NextToken(str, runs, old(State()))
    {
      if cursor > |str| {
        return Thrown(StringIndexOutOfBounds);
      }
      var c := str[cursor];
      if c == '\\' {
        out := EscapeCase();
      } else if c == '=' || c == '~' {
        out := DoubleCase(c);
      } else if c == '*' || c == '_' {
        out := EmphasisCase(c);
      } else {
        out := TextCase();
      }
    }

    /** The text token at the cursor. */
    method TextCase() returns (out: Outcome)
      requires cursor <= |str|
      modifies this
      ensures unchanged(this`runs)
      ensures (out, State()) == TextToken(str, runs, old(State()))
    {
      var text := GetTextTokenValue();
      out := EmitToken(Text, text);
    }

    /** The backslash case of getNextToken. */
    method EscapeCase() returns (out: Outcome)
      requires cursor < |str|
      modifies this
      ensures unchanged(this`runs)
      ensures (out, State()) == EscapeToken(str, runs, old(State()))
    {
      if cursor + 1 < |str| {
        var next := str[cursor + 1];
        var value := if IsAsciiPunctuation(next) then [next] else str[cursor..cursor + 2];
        cursor := cursor + 2;
        UpdateState(Text, value);
        return Emitted(Token(Text, value));
      } else {
        out := EmitToken(Text, str[cursor..cursor + 1]);
      }
    }

    /** The '=' and '~' case of getNextToken. */
    method DoubleCase(c: char) returns (out: Outcome)
      requires RunsValid(runs) && cursor <= |str|
      modifies this
      ensures unchanged(this`runs)
      ensures (out, State()) == DoubleToken(str, runs, old(State()), c)
    {
      if |runs| == 0 {
        out := TextCase();
        return;
      }
      if curRunIdx >= |runs| {
        return Thrown(IndexOutOfBounds);
      }
      var atRun := GetRunAtPos(cursor);
      if atRun.None? {
        out := TextCase();
        return;
      }
      if balanced && |contextStack| != 0 && runs[curRunIdx].action == Some(Close) {
        var value := Last(contextStack);
        out := EmitToken(GetTokenType(value), value);
        return;
      }
      var group := GetRunEquivalenceGroup();
      balanced := group.Some?;
      if balanced {
        out := EmitToken(if c == '=' then Highlight else Strikethrough, if c == '=' then "==" else "~~");
      } else {
        out := TextCase();
      }
    }

    /** The '*' and '_' case of getNextToken. */
    method EmphasisCase(c: char) returns (out: Outcome)
      requires RunsValid(runs) && cursor <= |str|
      modifies this
      ensures unchanged(this`runs)
      ensures (out, State()) == Tokenization.EmphasisCase(str, runs, old(State()), c)
    {
      if |runs| == 0 {
        out := TextCase();
        return;
      }
      if curRunIdx >= |runs| {
        return Thrown(IndexOutOfBounds);
      }
      var curRun := runs[curRunIdx];
      if balanced && |contextStack| != 0 && curRun.action == Some(Close) {
        var value := Last(contextStack);
        out := EmitToken(GetTokenType(value), value);
        return;
      }
      var group := GetRunEquivalenceGroup();
      balanced := group.Some?;
      if group.None? {
        out := TextCase();
        return;
      }
      out := EmphasisGroupCase(c, group.value);
    }

    /** The '*' and '_' case once the equivalence group g of the current run is known. */
    method EmphasisGroupCase(c: char, g: seq<nat>) returns (out: Outcome)
      requires curRunIdx < |runs| && |g| >= 1 && g[0] == curRunIdx
      requires forall p :: 0 <= p < |g| ==> g[p] < |runs|
      modifies this
      ensures unchanged(this`runs)
      ensures (out, State()) == EmphasisToken(str, runs, old(State()), c, g)
    {
      var curRun := runs[curRunIdx];
      var lastRun := runs[g[|g| - 1]];
      if curRun.length == 3 {
        if lastRun.length == 3 {
          scheduledTokens := scheduledTokens + [Token(Italics, [c])];
          out := EmitToken(Bold, [c, c]);
        } else {
          var penultimateRun := runs[g[|g| - 2]];
          scheduledTokens := scheduledTokens + [Token(GetTokenType(penultimateRun.value), penultimateRun.value)];
          out := EmitToken(GetTokenType(lastRun.value), lastRun.value);
        }
      } else {
        out := EmitToken(GetTokenType(curRun.value), curRun.value);
      }
    }
  }
}
