/**
 * The tokenizer of Tokenizer.java as a state machine over values: the state
 * the Tokenizer object carries between calls of getNextToken, one call as a
 * function from state to (outcome, state), and the whole token stream.
 */
module Tokenization {
  import opened Wrappers
  import opened TokenTypes
  import opened TokenizerUtils
  import opened DelimRuns
  import opened RunPasses

  /** The fields of a Tokenizer that change between calls (the string and the run list do not). */
  datatype TokState = TokState(cursor: nat, curRunIdx: nat, balanced: bool,
                               context: seq<string>, scheduled: seq<Token>)

  /** The runtime exceptions the Java code can raise. */
  datatype Failure = IndexOutOfBounds | StringIndexOutOfBounds

  /** What one call of getNextToken does: return null, return a token, or throw. */
  datatype Outcome = NoToken | Emitted(token: Token) | Thrown(failure: Failure)

  /** The state right after construction. */
  const Initial := TokState(0, 0, true, [], [])

  function Last<T>(q: seq<T>): T
    requires |q| > 0
  {
    q[|q| - 1]
  }

  function DropLast<T>(q: seq<T>): seq<T>
    requires |q| > 0
  {
    q[..|q| - 1]
  }

  /** The run list after construction: every run has a value and a symbol. */
  predicate RunsValid(runs: seq<DelimRun>)
  {
    forall k :: 0 <= k < |runs| ==> |runs[k].value| >= 1 && GetTokenSymbol(runs[k]).Some?
  }

  // ---------------------------------------------------------------------
  // getRunAtPos

  /** getRunAtPos(pos) != null: some run covers pos. */
  function HasRunAt(runs: seq<DelimRun>, pos: nat): (b: bool)
    ensures b <==> exists k :: 0 <= k < |runs| && runs[k].start <= pos < runs[k].end
  {
    if runs == [] then false
    else if runs[0].start <= pos < runs[0].end then true
    else
      var b := HasRunAt(runs[1..], pos);
      assert b ==> exists k :: 0 <= k < |runs| && runs[k].start <= pos < runs[k].end by {
        if b {
          var k :| 0 <= k < |runs[1..]| && runs[1..][k].start <= pos < runs[1..][k].end;
          assert runs[k + 1] == runs[1..][k];
        }
      }
      assert (exists k :: 0 <= k < |runs| && runs[k].start <= pos < runs[k].end) ==> b by {
        if exists k :: 0 <= k < |runs| && runs[k].start <= pos < runs[k].end {
          var k :| 0 <= k < |runs| && runs[k].start <= pos < runs[k].end;
          assert k > 0 && runs[1..][k - 1] == runs[k];
        }
      }
      b
  }

  // ---------------------------------------------------------------------
  // getRunEquivalenceGroup

  /** The symbol of the run at index k. */
  function SymbolAt(runs: seq<DelimRun>, k: nat): Option<string>
    requires k < |runs|
  {
    GetTokenSymbol(runs[k])
  }

  /** The indices in [a, b) of the runs whose symbol is sym, in order. */
  function Members(runs: seq<DelimRun>, sym: string, a: nat, b: nat): (m: seq<nat>)
    requires a <= b <= |runs|
    ensures forall p :: 0 <= p < |m| ==> a <= m[p] < b
    decreases b - a
  {
    if a == b then []
    else Members(runs, sym, a, b - 1) + (if SymbolAt(runs, b - 1) == Some(sym) then [b - 1] else [])
  }

  /** The total length of the runs named in g whose action is `a`. */
  function ActionLength(runs: seq<DelimRun>, g: seq<nat>, a: ActionType): nat
    requires forall p :: 0 <= p < |g| ==> g[p] < |runs|
  {
    if g == [] then 0
    else ActionLength(runs, DropLast(g), a) + (if runs[Last(g)].action == Some(a) then runs[Last(g)].length else 0)
  }

  /** The opening and closing lengths of the runs in g are equal. */
  predicate Balanced(runs: seq<DelimRun>, g: seq<nat>)
    requires forall p :: 0 <= p < |g| ==> g[p] < |runs|
  {
    ActionLength(runs, g, Open) == ActionLength(runs, g, Close)
  }

  /** The do-while loop stops after looking at the runs before b: at least two members, balanced. */
  predicate StopsAt(runs: seq<DelimRun>, sym: string, cur: nat, b: nat)
    requires cur <= b <= |runs|
  {
    var m := Members(runs, sym, cur, b);
    |m| >= 2 && Balanced(runs, m)
  }

  /**
   * The do-while loop of getRunEquivalenceGroup at index i, with the group,
   * the opening and the closing lengths collected so far.
   */
  function GroupFrom(runs: seq<DelimRun>, sym: string, i: nat, group: seq<nat>, open: nat, close: nat): (r: Option<seq<nat>>)
    requires i < |runs|
    decreases |runs| - i
  {
    var run := runs[i];
    var member := SymbolAt(runs, i) == Some(sym);
    var group' := if member then group + [i] else group;
    var open' := if member && run.action == Some(Open) then open + run.length else open;
    var close' := if member && run.action == Some(Close) then close + run.length else close;
    if i + 1 < |runs| && (|group'| < 2 || open' != close') then GroupFrom(runs, sym, i + 1, group', open', close')
    else if i + 1 == |runs| && open' != close' then None
    else Some(group')
  }

  /** The first stopping point after i: two or more balanced members, or the end of the list. */
  function StopPoint(runs: seq<DelimRun>, sym: string, cur: nat, i: nat): (b: nat)
    requires cur <= i < |runs|
    ensures i < b <= |runs| && (b == |runs| || StopsAt(runs, sym, cur, b))
    decreases |runs| - i
  {
    if i + 1 == |runs| || StopsAt(runs, sym, cur, i + 1) then i + 1
    else StopPoint(runs, sym, cur, i + 1)
  }

  /** No point between i and the stopping point is one where the loop would stop. */
  lemma {:induction false} StopPointFirst(runs: seq<DelimRun>, sym: string, cur: nat, i: nat)
    requires cur <= i < |runs|
    ensures forall b' :: i < b' < StopPoint(runs, sym, cur, i) ==> !StopsAt(runs, sym, cur, b')
    decreases |runs| - i
  {
    if !(i + 1 == |runs| || StopsAt(runs, sym, cur, i + 1)) {
      StopPointFirst(runs, sym, cur, i + 1);
    }
  }

  /** The group the loop returns when it stops at b: the members of [cur, b) if balanced. */
  function GroupAt(runs: seq<DelimRun>, sym: string, cur: nat, b: nat): Option<seq<nat>>
    requires cur <= b <= |runs|
  {
    var m := Members(runs, sym, cur, b);
    if Balanced(runs, m) then Some(m) else None
  }

  /**
   * getRunEquivalenceGroup: from the current run on, the runs with its
   * symbol up to the first point where there are two or more of them and
   * their opening and closing lengths agree; null when the current run is
   * the last one or the counts never agree.
   */
  function EquivalenceGroup(runs: seq<DelimRun>, cur: nat): (r: Option<seq<nat>>)
    requires RunsValid(runs) && cur < |runs|
    ensures r.Some? ==> cur + 1 < |runs| && |r.value| >= 1 && r.value[0] == cur &&
                        (forall p :: 0 <= p < |r.value| ==> cur <= r.value[p] < |runs|) &&
                        Balanced(runs, r.value)
  {
    if cur + 1 >= |runs| then None
    else
      var sym := SymbolAt(runs, cur).value;
      GroupSpec(runs, sym, cur, cur);
      MembersStartAtCur(runs, sym, cur, StopPoint(runs, sym, cur, cur));
      GroupFrom(runs, sym, cur, [], 0, 0)
  }

  /**
   * The loop of getRunEquivalenceGroup, entered at i with the members of
   * [cur, i) collected, ends at the first stopping point after i.
   */
  lemma {:induction false} GroupSpec(runs: seq<DelimRun>, sym: string, cur: nat, i: nat)
    requires cur <= i < |runs|
    ensures var g := Members(runs, sym, cur, i);
            GroupFrom(runs, sym, i, g, ActionLength(runs, g, Open), ActionLength(runs, g, Close)) ==
              GroupAt(runs, sym, cur, StopPoint(runs, sym, cur, i))
    decreases |runs| - i
  {
    if i + 1 < |runs| && !StopsAt(runs, sym, cur, i + 1) {
      GroupSpecGo(runs, sym, cur, i);
      GroupSpec(runs, sym, cur, i + 1);
    } else {
      GroupSpecStop(runs, sym, cur, i);
    }
  }

  /** The loop goes on past i + 1, and so does the first stopping point. */
  lemma GroupSpecGo(runs: seq<DelimRun>, sym: string, cur: nat, i: nat)
    requires cur <= i && i + 1 < |runs| && !StopsAt(runs, sym, cur, i + 1)
    ensures var g := Members(runs, sym, cur, i);
            var g' := Members(runs, sym, cur, i + 1);
            GroupFrom(runs, sym, i, g, ActionLength(runs, g, Open), ActionLength(runs, g, Close)) ==
              GroupFrom(runs, sym, i + 1, g', ActionLength(runs, g', Open), ActionLength(runs, g', Close))
    ensures StopPoint(runs, sym, cur, i) == StopPoint(runs, sym, cur, i + 1)
  {
    var g := Members(runs, sym, cur, i);
    var g' := Members(runs, sym, cur, i + 1);
    var o, c := ActionLength(runs, g, Open), ActionLength(runs, g, Close);
    var o', c' := ActionLength(runs, g', Open), ActionLength(runs, g', Close);
    MembersStep(runs, sym, cur, i);
    assert |g'| < 2 || o' != c';
    GroupStepGo(runs, sym, i, g, o, c, g', o', c');
  }

  /** The loop stops after run i: at the end of the list or at two or more balanced members. */
  lemma GroupSpecStop(runs: seq<DelimRun>, sym: string, cur: nat, i: nat)
    requires cur <= i < |runs| && (i + 1 == |runs| || StopsAt(runs, sym, cur, i + 1))
    ensures var g := Members(runs, sym, cur, i);
            GroupFrom(runs, sym, i, g, ActionLength(runs, g, Open), ActionLength(runs, g, Close)) ==
              GroupAt(runs, sym, cur, StopPoint(runs, sym, cur, i))
  {
    var g := Members(runs, sym, cur, i);
    var g' := Members(runs, sym, cur, i + 1);
    var o, c := ActionLength(runs, g, Open), ActionLength(runs, g, Close);
    var o', c' := ActionLength(runs, g', Open), ActionLength(runs, g', Close);
    MembersStep(runs, sym, cur, i);
    StopPointHere(runs, sym, cur, i);
    GroupAtIs(runs, sym, cur, i + 1);
    GroupStepStop(runs, sym, i, g, o, c, g', o', c');
  }

  lemma StopPointHere(runs: seq<DelimRun>, sym: string, cur: nat, i: nat)
    requires cur <= i < |runs| && (i + 1 == |runs| || StopsAt(runs, sym, cur, i + 1))
    ensures StopPoint(runs, sym, cur, i) == i + 1
    ensures var g' := Members(runs, sym, cur, i + 1);
            !(i + 1 < |runs| && (|g'| < 2 || ActionLength(runs, g', Open) != ActionLength(runs, g', Close)))
  {
  }

  lemma GroupAtIs(runs: seq<DelimRun>, sym: string, cur: nat, b: nat)
    requires cur <= b <= |runs|
    ensures var g := Members(runs, sym, cur, b);
            GroupAt(runs, sym, cur, b) ==
              if ActionLength(runs, g, Open) != ActionLength(runs, g, Close) then None else Some(g)
  {
  }

  /** The loop body extends the group and the lengths as the Java loop does. */
  predicate LoopBody(runs: seq<DelimRun>, sym: string, i: nat, group: seq<nat>, open: nat, close: nat,
                     group': seq<nat>, open': nat, close': nat)
    requires i < |runs|
  {
    var member := SymbolAt(runs, i) == Some(sym);
    group' == (if member then group + [i] else group) &&
    open' == (if member && runs[i].action == Some(Open) then open + runs[i].length else open) &&
    close' == (if member && runs[i].action == Some(Close) then close + runs[i].length else close)
  }

  /** One pass of the loop body after which the loop goes on. */
  lemma GroupStepGo(runs: seq<DelimRun>, sym: string, i: nat, group: seq<nat>, open: nat, close: nat,
                    group': seq<nat>, open': nat, close': nat)
    requires i + 1 < |runs| && LoopBody(runs, sym, i, group, open, close, group', open', close')
    requires |group'| < 2 || open' != close'
    ensures GroupFrom(runs, sym, i, group, open, close) == GroupFrom(runs, sym, i + 1, group', open', close')
  {
  }

  /** One pass of the loop body after which the loop stops. */
  lemma GroupStepStop(runs: seq<DelimRun>, sym: string, i: nat, group: seq<nat>, open: nat, close: nat,
                      group': seq<nat>, open': nat, close': nat)
    requires i < |runs| && LoopBody(runs, sym, i, group, open, close, group', open', close')
    requires !(i + 1 < |runs| && (|group'| < 2 || open' != close'))
    ensures GroupFrom(runs, sym, i, group, open, close) == if open' != close' then None else Some(group')
  {
  }

  /** Looking at run i extends the members and their lengths as the loop body does. */
  lemma MembersStep(runs: seq<DelimRun>, sym: string, cur: nat, i: nat)
    requires cur <= i < |runs|
    ensures var g := Members(runs, sym, cur, i);
            var g' := Members(runs, sym, cur, i + 1);
            LoopBody(runs, sym, i, g, ActionLength(runs, g, Open), ActionLength(runs, g, Close),
                     g', ActionLength(runs, g', Open), ActionLength(runs, g', Close))
  {
    var g := Members(runs, sym, cur, i);
    var g' := Members(runs, sym, cur, i + 1);
    if SymbolAt(runs, i) == Some(sym) {
      assert DropLast(g') == g && Last(g') == i;
    }
  }

  /** The members of [cur, b) start with cur itself. */
  lemma {:induction false} MembersStartAtCur(runs: seq<DelimRun>, sym: string, cur: nat, b: nat)
    requires cur < b <= |runs| && SymbolAt(runs, cur) == Some(sym)
    ensures |Members(runs, sym, cur, b)| >= 1 && Members(runs, sym, cur, b)[0] == cur
    decreases b - cur
  {
    var m := Members(runs, sym, cur, b - 1);
    var tail := if SymbolAt(runs, b - 1) == Some(sym) then [b - 1] else [];
    assert Members(runs, sym, cur, b) == m + tail;
    if b - 1 == cur {
      assert m + tail == [cur];
    } else {
      MembersStartAtCur(runs, sym, cur, b - 1);
      assert (m + tail)[0] == m[0];
    }
  }

  /**
   * getRunEquivalenceGroup in full: when the current run is not the last,
   * the result is the members of [cur, b) for the first stopping point b
   * when those are balanced, and null when they are not.
   */
  lemma EquivalenceGroupIs(runs: seq<DelimRun>, cur: nat)
    requires RunsValid(runs) && cur + 1 < |runs|
    ensures var sym := SymbolAt(runs, cur).value;
            var b := StopPoint(runs, sym, cur, cur);
            EquivalenceGroup(runs, cur) ==
              (if Balanced(runs, Members(runs, sym, cur, b)) then Some(Members(runs, sym, cur, b)) else None)
  {
    GroupSpec(runs, SymbolAt(runs, cur).value, cur, cur);
  }

  // ---------------------------------------------------------------------
  // updateState

  /**
   * The catch-up loop of updateState: the run index moves past every run
   * that ends at or before the cursor.
   */
  function CatchUp(runs: seq<DelimRun>, cursor: nat, idx: nat): (j: nat)
    ensures idx <= j && (idx <= |runs| ==> j <= |runs|)
    ensures j < |runs| ==> cursor < runs[j].end
    ensures forall k :: idx <= k < j ==> k < |runs| && runs[k].end <= cursor
    decreases |runs| - idx
  {
    if idx < |runs| && cursor >= runs[idx].end then CatchUp(runs, cursor, idx + 1) else idx
  }

  /**
   * The context stack after a token: a token equal to the innermost context
   * closes it; otherwise a format token opens a new one while the input is
   * balanced.
   */
  function NewContext(context: seq<string>, balanced: bool, tokenType: TokenType, value: string): seq<string>
  {
    if |context| != 0 && value == Last(context) then DropLast(context)
    else if balanced && IsFormatToken(tokenType) then context + [value]
    else context
  }

  /** updateState: nothing once the cursor is at the end; else the context and the run index move on. */
  function UpdateState(s: string, runs: seq<DelimRun>, st: TokState, tokenType: TokenType, value: string): (st': TokState)
    ensures st'.cursor == st.cursor && st'.balanced == st.balanced && st'.scheduled == st.scheduled
  {
    if st.cursor == |s| then st
    else st.(context := NewContext(st.context, st.balanced, tokenType, value),
             curRunIdx := CatchUp(runs, st.cursor, st.curRunIdx))
  }

  // ---------------------------------------------------------------------
  // getTextTokenValue

  /** A character that ends a text token: a backslash, or a delimiter in a run while balanced. */
  predicate StopsText(s: string, runs: seq<DelimRun>, balanced: bool, i: nat)
    requires i < |s|
  {
    s[i] == '\\' || (IsDelimChar(s[i]) && balanced && HasRunAt(runs, i))
  }

  /** Where the text token that starts at i ends: at the first stopping character, or the end. */
  function TextEnd(s: string, runs: seq<DelimRun>, balanced: bool, i: nat): (e: nat)
    requires i <= |s|
    ensures i <= e <= |s|
    ensures forall j :: i <= j < e ==> !StopsText(s, runs, balanced, j)
    ensures e == |s| || StopsText(s, runs, balanced, e)
    decreases |s| - i
  {
    if i == |s| || StopsText(s, runs, balanced, i) then i
    else TextEnd(s, runs, balanced, i + 1)
  }

  // ---------------------------------------------------------------------
  // getNextToken

  /** Move the cursor past the token, update the state, and return the token. */
  function Emit(s: string, runs: seq<DelimRun>, st: TokState, tokenType: TokenType, value: string): (Outcome, TokState)
  {
    (Emitted(Token(tokenType, value)),
     UpdateState(s, runs, Advance(st, |value|), tokenType, value))
  }

  /** The state with the cursor moved n characters on. */
  function Advance(st: TokState, n: nat): (st': TokState)
    ensures st'.cursor == st.cursor + n
    ensures st' == st.(cursor := st'.cursor)
  {
    st.(cursor := st.cursor + n)
  }

  /** scheduledTokens.push: the token is returned by the next call. */
  function Schedule(st: TokState, t: Token): (st': TokState)
    ensures st'.scheduled == st.scheduled + [t]
    ensures st' == st.(scheduled := st'.scheduled)
  {
    st.(scheduled := st.scheduled + [t])
  }

  /** scheduledTokens.pop: the most recently scheduled token is taken off. */
  function Unschedule(st: TokState): (st': TokState)
    requires |st.scheduled| != 0
    ensures st'.scheduled == DropLast(st.scheduled)
    ensures st' == st.(scheduled := st'.scheduled)
  {
    st.(scheduled := DropLast(st.scheduled))
  }

  /** A text token from the cursor up to the next stopping character. */
  function TextToken(s: string, runs: seq<DelimRun>, st: TokState): (Outcome, TokState)
    requires st.cursor <= |s|
  {
    var e := TextEnd(s, runs, st.balanced, st.cursor);
    Emit(s, runs, st, Text, s[st.cursor..e])
  }

  /**
   * A backslash: before ASCII punctuation it yields that character alone
   * (an escape), before anything else the backslash and that character, and
   * at the end of the string the backslash alone. The cursor moves past both.
   */
  function EscapeToken(s: string, runs: seq<DelimRun>, st: TokState): (r: (Outcome, TokState))
    requires st.cursor < |s|
    ensures st.cursor + 1 < |s| && IsAsciiPunctuation(s[st.cursor + 1]) ==>
              r.0 == Emitted(Token(Text, [s[st.cursor + 1]])) && r.1.cursor == st.cursor + 2
    ensures st.cursor + 1 < |s| && !IsAsciiPunctuation(s[st.cursor + 1]) ==>
              r.0 == Emitted(Token(Text, [s[st.cursor], s[st.cursor + 1]])) && r.1.cursor == st.cursor + 2
    ensures st.cursor + 1 == |s| ==> r.0 == Emitted(Token(Text, [s[st.cursor]])) && r.1.cursor == |s|
    ensures r.1.balanced == st.balanced && r.1.scheduled == st.scheduled
  {
    if st.cursor + 1 < |s| then
      var next := s[st.cursor + 1];
      var value := if IsAsciiPunctuation(next) then [next] else s[st.cursor..st.cursor + 2];
      assert s[st.cursor..st.cursor + 2] == [s[st.cursor], next];
      (Emitted(Token(Text, value)),
       UpdateState(s, runs, st.(cursor := st.cursor + 2), Text, value))
    else
      assert s[st.cursor..st.cursor + 1] == [s[st.cursor]];
      Emit(s, runs, st, Text, s[st.cursor..st.cursor + 1])
  }

  /** The current run closes the innermost context. */
  predicate ClosesContext(runs: seq<DelimRun>, st: TokState)
    requires st.curRunIdx < |runs|
  {
    st.balanced && |st.context| != 0 && runs[st.curRunIdx].action == Some(Close)
  }

  /** Closing the innermost context: its own value, typed by that value. */
  function ContextClose(s: string, runs: seq<DelimRun>, st: TokState): (Outcome, TokState)
    requires |st.context| != 0
  {
    var value := Last(st.context);
    Emit(s, runs, st, GetTokenType(value), value)
  }

  /**
   * The '*' and '_' tokens once the group is found. A current run of three
   * whose group ends in a run of three yields the bold pair and schedules the
   * single italic one; a current run of three whose group ends otherwise
   * yields the last run's value and schedules the one before it; any other
   * current run yields its own value.
   */
  function EmphasisToken(s: string, runs: seq<DelimRun>, st: TokState, c: char, g: seq<nat>): (Outcome, TokState)
    requires st.curRunIdx < |runs| && |g| >= 1 && g[0] == st.curRunIdx
    requires forall p :: 0 <= p < |g| ==> g[p] < |runs|
  {
    var cur := runs[st.curRunIdx];
    var last := runs[Last(g)];
    if cur.length == 3 then
      if last.length == 3 then
        Emit(s, runs, Schedule(st, Token(Italics, [c])), Bold, [c, c])
      else
        var penultimate := runs[g[|g| - 2]];
        Emit(s, runs, Schedule(st, Token(GetTokenType(penultimate.value), penultimate.value)),
             GetTokenType(last.value), last.value)
    else
      Emit(s, runs, st, GetTokenType(cur.value), cur.value)
  }

  /**
   * One call of getNextToken. A scheduled token is returned first; then the
   * character at the cursor decides. '=' and '~' need a run covering the
   * cursor, '*' and '_' only a current run; a CLOSE run closes the innermost
   * context; otherwise the equivalence group decides whether the input is
   * balanced, and when it is not the characters become text.
   */
  function NextToken(s: string, runs: seq<DelimRun>, st: TokState): (Outcome, TokState)
    requires RunsValid(runs)
  {
    if st.cursor == |s| then (NoToken, st)
    else if |st.scheduled| != 0 then
      var token := Last(st.scheduled);
      Emit(s, runs, Unschedule(st), token.tokenType, token.value)
    else if st.cursor > |s| then (Thrown(StringIndexOutOfBounds), st)
    else
      var c := s[st.cursor];
      if c == '\\' then EscapeToken(s, runs, st)
      else if c == '=' || c == '~' then DoubleToken(s, runs, st, c)
      else if c == '*' || c == '_' then EmphasisCase(s, runs, st, c)
      else TextToken(s, runs, st)
  }

  /** The state with the balanced flag set to b. */
  function SetBalanced(st: TokState, b: bool): (st': TokState)
    ensures st'.balanced == b && st' == st.(balanced := st'.balanced)
  {
    st.(balanced := b)
  }

  /**
   * The '=' and '~' case: a run must cover the cursor; a CLOSE run closes the
   * innermost context; a balanced group gives "==" or "~~", anything else text.
   */
  function DoubleToken(s: string, runs: seq<DelimRun>, st: TokState, c: char): (Outcome, TokState)
    requires RunsValid(runs) && st.cursor <= |s|
  {
    if |runs| == 0 then TextToken(s, runs, st)
    else if st.curRunIdx >= |runs| then (Thrown(IndexOutOfBounds), st)
    else if !HasRunAt(runs, st.cursor) then TextToken(s, runs, st)
    else if ClosesContext(runs, st) then ContextClose(s, runs, st)
    else if EquivalenceGroup(runs, st.curRunIdx).None? then TextToken(s, runs, SetBalanced(st, false))
    else Emit(s, runs, SetBalanced(st, true), if c == '=' then Highlight else Strikethrough,
              if c == '=' then "==" else "~~")
  }

  /**
   * The '*' and '_' case: the current run decides, without checking that it
   * covers the cursor; a CLOSE run closes the innermost context; a balanced
   * group gives an emphasis token, anything else text.
   */
  function EmphasisCase(s: string, runs: seq<DelimRun>, st: TokState, c: char): (Outcome, TokState)
    requires RunsValid(runs) && st.cursor <= |s|
  {
    if |runs| == 0 then TextToken(s, runs, st)
    else if st.curRunIdx >= |runs| then (Thrown(IndexOutOfBounds), st)
    else if ClosesContext(runs, st) then ContextClose(s, runs, st)
    else
      match EquivalenceGroup(runs, st.curRunIdx)
      case None => TextToken(s, runs, SetBalanced(st, false))
      case Some(g) => EmphasisToken(s, runs, SetBalanced(st, true), c, g)
  }

  // ---------------------------------------------------------------------
  // What getNextToken keeps and guarantees

  /** A token whose type agrees with the symbol table, unless it is plain text. */
  predicate WellTyped(t: Token)
  {
    t.tokenType == Text || t.tokenType == GetTokenType(t.value)
  }

  /**
   * The state between calls: the run index within the list, every open
   * context a format symbol, and at most one scheduled token, which is
   * nonempty and well typed.
   */
  predicate StateValid(runs: seq<DelimRun>, st: TokState)
  {
    st.curRunIdx <= |runs| &&
    (forall k :: 0 <= k < |st.context| ==> IsFormatToken(GetTokenType(st.context[k]))) &&
    |st.scheduled| <= 1 &&
    (forall k :: 0 <= k < |st.scheduled| ==>
       |st.scheduled[k].value| >= 1 && st.scheduled[k].tokenType == GetTokenType(st.scheduled[k].value))
  }

  /** What is left to tokenize: the unread characters, then the scheduled tokens. */
  function Remaining(s: string, st: TokState): (nat, nat)
  {
    (if st.cursor <= |s| then |s| - st.cursor + 1 else 0, |st.scheduled|)
  }

  predicate Smaller(a: (nat, nat), b: (nat, nat))
  {
    a.0 < b.0 || (a.0 == b.0 && a.1 < b.1)
  }

  /** Format symbols are nonempty. */
  lemma FormatValueNonempty(v: string)
    requires IsFormatToken(GetTokenType(v))
    ensures |v| >= 1
  {
    FormatSymbols(v);
  }

  /** Updating the state keeps the context made of format symbols and the run index in range. */
  lemma UpdateKeepsValid(s: string, runs: seq<DelimRun>, st: TokState, t: Token)
    requires StateValid(runs, st) && WellTyped(t)
    ensures StateValid(runs, UpdateState(s, runs, st, t.tokenType, t.value))
  {
    if st.cursor != |s| {
      var c := NewContext(st.context, st.balanced, t.tokenType, t.value);
      forall k | 0 <= k < |c| ensures IsFormatToken(GetTokenType(c[k])) {
        if |st.context| != 0 && t.value == Last(st.context) {
          assert c[k] == st.context[k];
        } else if st.balanced && IsFormatToken(t.tokenType) && k == |st.context| {
          assert c[k] == t.value && GetTokenType(t.value) == t.tokenType;
        } else {
          assert c[k] == st.context[k];
        }
      }
    }
  }

  /** A text token is never empty when the character at the cursor does not stop text. */
  lemma TextTokenNonempty(s: string, runs: seq<DelimRun>, st: TokState)
    requires st.cursor < |s| && !StopsText(s, runs, st.balanced, st.cursor)
    ensures TextEnd(s, runs, st.balanced, st.cursor) > st.cursor
  {
  }

  /**
   * getNextToken returns null exactly when the cursor is at the end of the
   * string, and then changes nothing; it throws only with nothing scheduled,
   * and then changes nothing either.
   */
  lemma NoTokenIffAtEnd(s: string, runs: seq<DelimRun>, st: TokState)
    requires RunsValid(runs)
    ensures var (o, st') := NextToken(s, runs, st);
            (o.NoToken? <==> st.cursor == |s|) && (o.NoToken? ==> st' == st) &&
            (o.Thrown? ==> |st.scheduled| == 0 && st' == st)
  {
  }

  /**
   * What one call guarantees, starting from st: a returned token is nonempty
   * and well typed, the cursor moves forward, the state stays valid and what
   * is left to tokenize shrinks.
   */
  predicate GoodStep(s: string, runs: seq<DelimRun>, st: TokState, r: (Outcome, TokState))
  {
    r.0.Emitted? ==>
      |r.0.token.value| >= 1 && WellTyped(r.0.token) && r.1.cursor > st.cursor &&
      StateValid(runs, r.1) && Smaller(Remaining(s, r.1), Remaining(s, st))
  }

  /** Emitting a nonempty, well-typed value from a valid state is a good step from st0. */
  lemma EmitGood(s: string, runs: seq<DelimRun>, st0: TokState, st: TokState, tokenType: TokenType, value: string)
    requires StateValid(runs, st) && |value| >= 1 && WellTyped(Token(tokenType, value))
    requires st.cursor == st0.cursor && (st0.cursor < |s| || |st.scheduled| < |st0.scheduled|)
    ensures GoodStep(s, runs, st0, Emit(s, runs, st, tokenType, value))
  {
    var t := Token(tokenType, value);
    var st1 := Advance(st, |value|);
    UpdateKeepsValid(s, runs, st1, t);
    var st' := UpdateState(s, runs, st1, tokenType, value);
    assert st'.cursor == st0.cursor + |value| && st'.scheduled == st.scheduled;
    RemainingShrinks(s, st0, st');
  }

  /** Moving the cursor forward shrinks what is left, provided input was left or a scheduled token was taken. */
  lemma RemainingShrinks(s: string, st0: TokState, st': TokState)
    requires st'.cursor > st0.cursor && (st0.cursor < |s| || |st'.scheduled| < |st0.scheduled|)
    ensures Smaller(Remaining(s, st'), Remaining(s, st0))
  {
  }

  /** The backslash case is a good step. */
  lemma EscapeGood(s: string, runs: seq<DelimRun>, st: TokState)
    requires StateValid(runs, st) && st.cursor < |s|
    ensures GoodStep(s, runs, st, EscapeToken(s, runs, st))
  {
    if st.cursor + 1 < |s| {
      var next := s[st.cursor + 1];
      var value := if IsAsciiPunctuation(next) then [next] else s[st.cursor..st.cursor + 2];
      UpdateKeepsValid(s, runs, st.(cursor := st.cursor + 2), Token(Text, value));
    } else {
      EmitGood(s, runs, st, st, Text, s[st.cursor..st.cursor + 1]);
    }
  }

  /** A text token from a character that does not stop text is a good step. */
  lemma TextGood(s: string, runs: seq<DelimRun>, st0: TokState, st: TokState)
    requires StateValid(runs, st) && st.cursor < |s| && !StopsText(s, runs, st.balanced, st.cursor)
    requires st.cursor == st0.cursor
    ensures GoodStep(s, runs, st0, TextToken(s, runs, st))
  {
    TextTokenNonempty(s, runs, st);
    EmitGood(s, runs, st0, st, Text, s[st.cursor..TextEnd(s, runs, st.balanced, st.cursor)]);
  }

  /** Closing the innermost context is a good step. */
  lemma CloseGood(s: string, runs: seq<DelimRun>, st: TokState)
    requires StateValid(runs, st) && st.cursor < |s| && |st.context| != 0
    ensures GoodStep(s, runs, st, ContextClose(s, runs, st))
  {
    var value := Last(st.context);
    FormatValueNonempty(value);
    EmitGood(s, runs, st, st, GetTokenType(value), value);
  }

  /** The emphasis tokens are a good step when nothing was scheduled. */
  lemma EmphasisGood(s: string, runs: seq<DelimRun>, st0: TokState, st: TokState, c: char, g: seq<nat>)
    requires RunsValid(runs) && StateValid(runs, st) && |st.scheduled| == 0
    requires c == '*' || c == '_'
    requires st.cursor == st0.cursor && st.cursor < |s|
    requires st.curRunIdx < |runs| && |g| >= 1 && g[0] == st.curRunIdx
    requires forall p :: 0 <= p < |g| ==> g[p] < |runs|
    ensures GoodStep(s, runs, st0, EmphasisToken(s, runs, st, c, g))
  {
    if runs[st.curRunIdx].length != 3 {
      SingleGood(s, runs, st0, st, c, g);
    } else if runs[Last(g)].length == 3 {
      TripleGood(s, runs, st0, st, c, g);
    } else {
      SplitGood(s, runs, st0, st, c, g);
    }
  }

  lemma SingleGood(s: string, runs: seq<DelimRun>, st0: TokState, st: TokState, c: char, g: seq<nat>)
    requires RunsValid(runs) && StateValid(runs, st) && |st.scheduled| == 0
    requires c == '*' || c == '_'
    requires st.cursor == st0.cursor && st.cursor < |s|
    requires st.curRunIdx < |runs| && |g| >= 1 && g[0] == st.curRunIdx
    requires forall p :: 0 <= p < |g| ==> g[p] < |runs|
    requires runs[st.curRunIdx].length != 3
    ensures GoodStep(s, runs, st0, EmphasisToken(s, runs, st, c, g))
  {
    var cur := runs[st.curRunIdx];
    assert EmphasisToken(s, runs, st, c, g) == Emit(s, runs, st, GetTokenType(cur.value), cur.value);
    EmitGood(s, runs, st0, st, GetTokenType(cur.value), cur.value);
  }

  lemma TripleGood(s: string, runs: seq<DelimRun>, st0: TokState, st: TokState, c: char, g: seq<nat>)
    requires RunsValid(runs) && StateValid(runs, st) && |st.scheduled| == 0
    requires c == '*' || c == '_'
    requires st.cursor == st0.cursor && st.cursor < |s|
    requires st.curRunIdx < |runs| && |g| >= 1 && g[0] == st.curRunIdx
    requires forall p :: 0 <= p < |g| ==> g[p] < |runs|
    requires runs[st.curRunIdx].length == 3 && runs[Last(g)].length == 3
    ensures GoodStep(s, runs, st0, EmphasisToken(s, runs, st, c, g))
  {
    var st1 := Schedule(st, Token(Italics, [c]));
    assert EmphasisToken(s, runs, st, c, g) == Emit(s, runs, st1, Bold, [c, c]);
    EmphasisTypes(c);
    ScheduleValid(runs, st, Token(Italics, [c]));
    EmitGood(s, runs, st0, st1, Bold, [c, c]);
  }

  /** Scheduling one well-typed token on an empty schedule keeps the state valid. */
  lemma ScheduleValid(runs: seq<DelimRun>, st: TokState, t: Token)
    requires StateValid(runs, st) && |st.scheduled| == 0
    requires |t.value| >= 1 && t.tokenType == GetTokenType(t.value)
    ensures StateValid(runs, Schedule(st, t))
  {
  }

  lemma SplitGood(s: string, runs: seq<DelimRun>, st0: TokState, st: TokState, c: char, g: seq<nat>)
    requires RunsValid(runs) && StateValid(runs, st) && |st.scheduled| == 0
    requires c == '*' || c == '_'
    requires st.cursor == st0.cursor && st.cursor < |s|
    requires st.curRunIdx < |runs| && |g| >= 1 && g[0] == st.curRunIdx
    requires forall p :: 0 <= p < |g| ==> g[p] < |runs|
    requires runs[st.curRunIdx].length == 3 && runs[Last(g)].length != 3
    ensures GoodStep(s, runs, st0, EmphasisToken(s, runs, st, c, g))
  {
    var last := runs[Last(g)];
    assert |g| >= 2;
    var penultimate := runs[g[|g| - 2]];
    var st1 := Schedule(st, Token(GetTokenType(penultimate.value), penultimate.value));
    assert EmphasisToken(s, runs, st, c, g) == Emit(s, runs, st1, GetTokenType(last.value), last.value);
    ScheduleValid(runs, st, Token(GetTokenType(penultimate.value), penultimate.value));
    EmitGood(s, runs, st0, st1, GetTokenType(last.value), last.value);
  }

  /** Every call of getNextToken from a valid state is a good step. */
  lemma NextTokenProgress(s: string, runs: seq<DelimRun>, st: TokState)
    requires RunsValid(runs) && StateValid(runs, st)
    ensures GoodStep(s, runs, st, NextToken(s, runs, st))
  {
    if st.cursor == |s| {
    } else if |st.scheduled| != 0 {
      var token := Last(st.scheduled);
      EmitGood(s, runs, st, Unschedule(st), token.tokenType, token.value);
    } else if st.cursor < |s| {
      var c := s[st.cursor];
      if c == '\\' {
        EscapeGood(s, runs, st);
      } else if c == '=' || c == '~' {
        DoubleGood(s, runs, st, c);
      } else if c == '*' || c == '_' {
        EmphasisCaseGood(s, runs, st, c);
      } else {
        TextGood(s, runs, st, st);
      }
    }
  }

  /** The '=' and '~' case is a good step. */
  lemma DoubleGood(s: string, runs: seq<DelimRun>, st: TokState, c: char)
    requires RunsValid(runs) && StateValid(runs, st) && |st.scheduled| == 0 && st.cursor < |s|
    requires s[st.cursor] == c && (c == '=' || c == '~')
    ensures GoodStep(s, runs, st, DoubleToken(s, runs, st, c))
  {
    if |runs| == 0 || !HasRunAt(runs, st.cursor) {
      TextGood(s, runs, st, st);
    } else if st.curRunIdx >= |runs| {
    } else if ClosesContext(runs, st) {
      CloseGood(s, runs, st);
    } else if EquivalenceGroup(runs, st.curRunIdx).None? {
      TextGood(s, runs, st, SetBalanced(st, false));
    } else {
      FormatSymbolTypes();
      EmitGood(s, runs, st, SetBalanced(st, true), if c == '=' then Highlight else Strikethrough,
               if c == '=' then "==" else "~~");
    }
  }

  /** The '*' and '_' case is a good step. */
  lemma EmphasisCaseGood(s: string, runs: seq<DelimRun>, st: TokState, c: char)
    requires RunsValid(runs) && StateValid(runs, st) && |st.scheduled| == 0 && st.cursor < |s|
    requires s[st.cursor] == c && (c == '*' || c == '_')
    ensures GoodStep(s, runs, st, EmphasisCase(s, runs, st, c))
  {
    if |runs| == 0 {
      TextGood(s, runs, st, st);
    } else if st.curRunIdx >= |runs| {
    } else if ClosesContext(runs, st) {
      CloseGood(s, runs, st);
    } else if EquivalenceGroup(runs, st.curRunIdx).None? {
      TextGood(s, runs, st, SetBalanced(st, false));
    } else {
      EmphasisGood(s, runs, st, SetBalanced(st, true), c, EquivalenceGroup(runs, st.curRunIdx).value);
    }
  }

  // ---------------------------------------------------------------------
  // The token stream: getNextToken until it returns null

  /** The tokens returned before null, or before an exception and that exception. */
  datatype TokenStream = Finished(tokens: seq<Token>) | Failed(tokens: seq<Token>, failure: Failure)

  function Prepend(t: Token, r: TokenStream): (r': TokenStream)
    ensures r'.tokens == [t] + r.tokens && r'.Finished? == r.Finished?
  {
    match r
    case Finished(ts) => Finished([t] + ts)
    case Failed(ts, f) => Failed([t] + ts, f)
  }

  /** Tokens are nonempty and well typed. */
  predicate AllGood(tokens: seq<Token>)
  {
    forall k :: 0 <= k < |tokens| ==> |tokens[k].value| >= 1 && WellTyped(tokens[k])
  }

  /**
   * Calling getNextToken from st until it returns null. The calls always
   * end, and every token on the way is nonempty and well typed.
   */
  function Drain(s: string, runs: seq<DelimRun>, st: TokState): (r: TokenStream)
    requires RunsValid(runs) && StateValid(runs, st)
    ensures AllGood(r.tokens)
    ensures |r.tokens| <= Remaining(s, st).0 + Remaining(s, st).1
    decreases Remaining(s, st).0, Remaining(s, st).1
  {
    var r := NextToken(s, runs, st);
    NextTokenProgress(s, runs, st);
    match r.0
    case NoToken => Finished([])
    case Thrown(f) => Failed([], f)
    case Emitted(t) =>
      assert StateValid(runs, r.1) && Smaller(Remaining(s, r.1), Remaining(s, st));
      var rest := Drain(s, runs, r.1);
      PrependGood(t, rest);
      Prepend(t, rest)
  }

  lemma PrependGood(t: Token, rest: TokenStream)
    requires |t.value| >= 1 && WellTyped(t) && AllGood(rest.tokens)
    ensures AllGood(Prepend(t, rest).tokens)
  {
    var ts := Prepend(t, rest).tokens;
    forall k | 0 <= k < |ts| ensures |ts[k].value| >= 1 && WellTyped(ts[k]) {
      if k > 0 { assert ts[k] == rest.tokens[k - 1]; }
    }
  }

  /** The kept runs are valid for getNextToken: nonempty, each with a symbol. */
  lemma KeptRunsValid(s: string, runs: seq<DelimRun>)
    requires AllKept(s, runs)
    ensures RunsValid(runs)
  {
    forall k | 0 <= k < |runs| ensures |runs[k].value| >= 1 && GetTokenSymbol(runs[k]).Some? {
      KeepIffShape(s, runs[k]);
    }
  }

  /** The runs of the constructor are usable and the initial state is valid for them. */
  lemma InitialValid(s: string, punct: char -> bool)
    ensures RunsValid(InitialRuns(s, punct)) && StateValid(InitialRuns(s, punct), Initial)
  {
    KeptRunsValid(s, InitialRuns(s, punct));
  }

  /** The whole token stream of a string, with `punct` classifying Unicode punctuation. */
  function Tokenize(s: string, punct: char -> bool): (r: TokenStream)
    ensures AllGood(r.tokens)
  {
    var runs := InitialRuns(s, punct);
    KeptRunsValid(s, runs);
    Drain(s, runs, Initial)
  }

  /** Text with no delimiter character and no backslash. */
  predicate PlainText(s: string)
  {
    forall i :: 0 <= i < |s| ==> !IsDelimChar(s[i]) && s[i] != '\\'
  }

  /** A string without delimiter characters has no runs. */
  lemma NoDelimNoRuns(s: string, punct: char -> bool)
    requires forall i :: 0 <= i < |s| ==> !IsDelimChar(s[i])
    ensures InitialRuns(s, punct) == []
  {
  }

  /**
   * A string whose only delimiters are single '~' or '=' characters, and
   * with no backslash, has no runs left once the filter drops the lone ones.
   */
  lemma LoneDelimsNoRuns(s: string, punct: char -> bool)
    requires forall i :: 0 <= i < |s| ==> s[i] != '\\'
    requires forall i :: 0 <= i < |s| && IsDelimChar(s[i]) ==>
               (s[i] == '~' || s[i] == '=') && (i + 1 == |s| || s[i + 1] != s[i])
    ensures InitialRuns(s, punct) == []
  {
    var scanned := Scan(s, punct);
    PreprocessNoBackslash(s, scanned);
    forall k | 0 <= k < |scanned| ensures !Keep(scanned[k]) {
      LoneRunDropped(s, scanned[k]);
    }
    FilterNone(scanned);
  }

  /** A lone '~' or '=' run has no symbol, and the filter drops it. */
  lemma LoneRunDropped(s: string, r: DelimRun)
    requires RunShape(s, r)
    requires forall i :: 0 <= i < |s| && IsDelimChar(s[i]) ==>
               (s[i] == '~' || s[i] == '=') && (i + 1 == |s| || s[i + 1] != s[i])
    ensures !Keep(r)
  {
    if r.length > 1 {
      RepeatAt(s[r.start], r.length, 1);
      assert false;
    }
    UniformSymbol(r.value, s[r.start]);
  }

  /**
   * With no runs and no backslash, the whole string is one text token
   * (whatever its first character), and the empty string is no token at all.
   */
  lemma NoRunsText(s: string, punct: char -> bool)
    requires InitialRuns(s, punct) == [] && forall i :: 0 <= i < |s| ==> s[i] != '\\'
    ensures Tokenize(s, punct) == Finished(if s == [] then [] else [Token(Text, s)])
  {
    assert Tokenize(s, punct) == Drain(s, [], Initial);
    NoRunsDrain(s);
  }

  /** With no runs and no backslash, getNextToken returns the whole string as text, then null. */
  lemma NoRunsDrain(s: string)
    requires forall i :: 0 <= i < |s| ==> s[i] != '\\'
    ensures Drain(s, [], Initial) == Finished(if s == [] then [] else [Token(Text, s)])
  {
    if s != [] {
      NoRunsStep(s);
      DrainLast(s, [], Initial, Token(Text, s), TokState(|s|, 0, true, [], []));
    }
  }

  /** A call that returns a token and reaches the end of the string is the last one. */
  lemma DrainLast(s: string, runs: seq<DelimRun>, st: TokState, t: Token, st': TokState)
    requires RunsValid(runs) && StateValid(runs, st)
    requires NextToken(s, runs, st) == (Emitted(t), st') && st'.cursor == |s|
    ensures Drain(s, runs, st) == Finished([t])
  {
    NextTokenProgress(s, runs, st);
    assert Drain(s, runs, st') == Finished([]);
  }

  /** The first call with no runs and no backslash takes the whole string as text. */
  lemma NoRunsStep(s: string)
    requires s != [] && forall i :: 0 <= i < |s| ==> s[i] != '\\'
    ensures NextToken(s, [], Initial) == (Emitted(Token(Text, s)), TokState(|s|, 0, true, [], []))
  {
    TextEndNoStop(s, [], true, 0);
    assert s[0..|s|] == s;
    assert NextToken(s, [], Initial) == TextToken(s, [], Initial);
  }

  /** Without a stopping character from i on, text runs to the end of the string. */
  lemma {:induction false} TextEndNoStop(s: string, runs: seq<DelimRun>, balanced: bool, i: nat)
    requires i <= |s| && forall j :: i <= j < |s| ==> !StopsText(s, runs, balanced, j)
    ensures TextEnd(s, runs, balanced, i) == |s|
    decreases |s| - i
  {
    if i < |s| {
      TextEndNoStop(s, runs, balanced, i + 1);
    }
  }

  /** Plain text is one text token holding the whole string; the empty string is no token at all. */
  lemma PlainTextTokens(s: string, punct: char -> bool)
    requires PlainText(s)
    ensures Tokenize(s, punct) == Finished(if s == [] then [] else [Token(Text, s)])
  {
    NoDelimNoRuns(s, punct);
    NoRunsText(s, punct);
  }
}
