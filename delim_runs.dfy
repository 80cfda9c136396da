/**
 * Delimiter runs (DelimRun in Tokenizer.java): scanning a string for maximal
 * runs of '_', '*', '~' and '=', classifying each run's flank direction, and
 * filtering out runs that can never become format tokens.
 */
module DelimRuns {
  import opened Wrappers
  import opened TokenizerUtils

  /** LEFT: ***abc, RIGHT: abc***, BOTH: abc***def, NEITHER: abc *** def. */
  datatype FlankDirection = Left | Right | Both | Neither

  datatype ActionType = Open | Close

  /**
   * A delimiter run: its text, its action (None until assigned, and for
   * NEITHER runs for good), its flank direction, its start (inclusive), end
   * (exclusive) and length.
   */
  datatype DelimRun = DelimRun(value: string, action: Option<ActionType>, flank: FlankDirection,
                               start: nat, end: nat, length: nat)

  predicate IsDelimChar(c: char)
  {
    c == '*' || c == '_' || c == '~' || c == '='
  }

  /** The run symbols, in the order getTokenSymbol tries them. */
  const RunSymbols: seq<string> := ["*", "_", "~~", "=="]

  /** String.contains: `p` occurs somewhere in `v`. */
  function HasSubstring(v: string, p: string): bool
    decreases |v|
  {
    if p <= v then true
    else if v == [] then false
    else HasSubstring(v[1..], p)
  }

  /** getTokenSymbol: the first run symbol that occurs in `v`, if any. */
  function SymbolIn(symbols: seq<string>, v: string): (r: Option<string>)
    ensures r.Some? ==> r.value in symbols && HasSubstring(v, r.value)
    ensures r.None? ==> forall k :: 0 <= k < |symbols| ==> !HasSubstring(v, symbols[k])
  {
    if symbols == [] then None
    else if HasSubstring(v, symbols[0]) then Some(symbols[0])
    else SymbolIn(symbols[1..], v)
  }

  /** The symbol found is the first of the list that occurs in `v`: none listed before it occurs. */
  lemma {:induction false} SymbolInFirst(symbols: seq<string>, v: string)
    ensures var r := SymbolIn(symbols, v);
      r.Some? ==> exists k :: 0 <= k < |symbols| && symbols[k] == r.value &&
                    forall j :: 0 <= j < k ==> !HasSubstring(v, symbols[j])
  {
    var k := SymbolIndex(symbols, v);
    if SymbolIn(symbols, v).Some? {
      assert symbols[k] == SymbolIn(symbols, v).value;
    }
  }

  /** Where SymbolIn found its symbol: every symbol before it is absent from v. */
  lemma {:induction false} SymbolIndex(symbols: seq<string>, v: string) returns (k: nat)
    ensures var r := SymbolIn(symbols, v);
      r.Some? ==> k < |symbols| && symbols[k] == r.value &&
                  forall j :: 0 <= j < k ==> !HasSubstring(v, symbols[j])
  {
    k := 0;
    if symbols != [] && !HasSubstring(v, symbols[0]) {
      var k' := SymbolIndex(symbols[1..], v);
      k := k' + 1;
      forall j | 0 <= j < k && SymbolIn(symbols, v).Some? ensures !HasSubstring(v, symbols[j]) {
        if j > 0 { assert symbols[j] == symbols[1..][j - 1]; }
      }
    }
  }

  function GetTokenSymbol(run: DelimRun): (r: Option<string>)
    ensures r.Some? ==> r.value in RunSymbols
  {
    SymbolIn(RunSymbols, run.value)
  }

  /** The string of n copies of c. */
  function Repeat(c: char, n: nat): (r: string)
    ensures |r| == n
  {
    if n == 0 then [] else [c] + Repeat(c, n - 1)
  }

  lemma {:induction false} RepeatAt(c: char, n: nat, k: nat)
    requires k < n
    ensures Repeat(c, n)[k] == c
  {
    if k > 0 { RepeatAt(c, n - 1, k - 1); }
  }

  /** A stretch of the string that holds only `c` is a repetition of `c`. */
  lemma {:induction false} SliceIsRepeat(s: string, a: nat, b: nat, c: char)
    requires a <= b <= |s| && forall j :: a <= j < b ==> s[j] == c
    ensures s[a..b] == Repeat(c, b - a)
    decreases b - a
  {
    if a < b {
      SliceIsRepeat(s, a + 1, b, c);
      assert s[a..b] == [s[a]] + s[a + 1..b];
    }
  }

  /**
   * For the text of a maximal run, the symbol is decided by its character:
   * '*' and '_' runs have symbol "*" and "_", '~' and '=' runs have "~~" and
   * "==" when at least two long and no symbol when alone.
   */
  lemma {:induction false} UniformSymbol(v: string, c: char)
    requires |v| >= 1 && IsDelimChar(c) && v == Repeat(c, |v|)
    ensures SymbolIn(RunSymbols, v) ==
      if c == '*' then Some("*")
      else if c == '_' then Some("_")
      else if |v| < 2 then None
      else if c == '~' then Some("~~")
      else Some("==")
  {
    assert RunSymbols[1..] == ["_", "~~", "=="];
    assert RunSymbols[1..][1..] == ["~~", "=="];
    assert RunSymbols[1..][1..][1..] == ["=="];
    assert RunSymbols[1..][1..][1..][1..] == [];
    UniformHas(v, c, "*");
    UniformHas(v, c, "_");
    UniformHas(v, c, "~~");
    UniformHas(v, c, "==");
    assert SymbolIn(["=="], v) == if HasSubstring(v, "==") then Some("==") else None;
    assert SymbolIn(["~~", "=="], v) ==
      if HasSubstring(v, "~~") then Some("~~") else SymbolIn(["=="], v);
    assert SymbolIn(["_", "~~", "=="], v) ==
      if HasSubstring(v, "_") then Some("_") else SymbolIn(["~~", "=="], v);
  }

  /** A repetition contains a repeated pattern exactly when they share the character and it fits. */
  lemma {:induction false} UniformHas(v: string, c: char, p: string)
    requires v == Repeat(c, |v|) && |p| >= 1 && p == Repeat(p[0], |p|)
    ensures HasSubstring(v, p) <==> (p[0] == c && |p| <= |v|)
    decreases |v|
  {
    if p[0] == c && |p| <= |v| {
      forall k | 0 <= k < |p| ensures v[k] == p[k] {
        RepeatAt(c, |v|, k);
        RepeatAt(c, |p|, k);
      }
      assert v[..|p|] == p;
    } else if v != [] {
      assert !(p <= v) by {
        if |p| <= |v| { RepeatAt(c, |v|, 0); }
      }
      UniformHas(v[1..], c, p);
    }
  }

  // ---------------------------------------------------------------------
  // Flank classification (CommonMark 0.31.2, section 6.2)

  /**
   * The left-flanking rule in the words of the CommonMark specification: not
   * followed by whitespace, and either not followed by punctuation, or
   * followed by punctuation and preceded by whitespace or punctuation.
   */
  predicate LeftFlankingRule(prev: char, next: char, punct: char -> bool)
  {
    !IsWhiteSpace(next) &&
    (!punct(next) || (punct(next) && (IsWhiteSpace(prev) || punct(prev))))
  }

  /** The right-flanking rule, the mirror image of the left one. */
  predicate RightFlankingRule(prev: char, next: char, punct: char -> bool)
  {
    !IsWhiteSpace(prev) &&
    (!punct(prev) || (punct(prev) && (IsWhiteSpace(next) || punct(next))))
  }

  /** The character before the run, a space at the start of the string. */
  function PrevChar(s: string, start: nat): char
  {
    if start == 0 || start > |s| then ' ' else s[start - 1]
  }

  /** The character after the run, a space at the end of the string. */
  function NextChar(s: string, end: nat): char
  {
    if end >= |s| then ' ' else s[end]
  }

  /**
   * The flank direction of the run s[start..end], as the scanner computes it
   * with conditional expressions; its contract is the CommonMark rule.
   */
  function Flank(s: string, start: nat, end: nat, punct: char -> bool): (d: FlankDirection)
    ensures var l := LeftFlankingRule(PrevChar(s, start), NextChar(s, end), punct);
            var r := RightFlankingRule(PrevChar(s, start), NextChar(s, end), punct);
            (d == Both <==> l && r) && (d == Left <==> l && !r) &&
            (d == Right <==> !l && r) && (d == Neither <==> !l && !r)
  {
    var prev := PrevChar(s, start);
    var next := NextChar(s, end);
    var isLeft := !IsWhiteSpace(next) &&
                  (if !punct(next) then true else IsWhiteSpace(prev) || punct(prev));
    var isRight := !IsWhiteSpace(prev) &&
                   (if !punct(prev) then true else IsWhiteSpace(next) || punct(next));
    if isLeft && isRight then Both
    else if isLeft then Left
    else if isRight then Right
    else Neither
  }

  // ---------------------------------------------------------------------
  // Scanning for maximal runs

  /** A run that stands for the text s[start..end] of one repeated delimiter character. */
  ghost predicate RunShape(s: string, r: DelimRun)
  {
    r.start < r.end <= |s| && r.length == r.end - r.start &&
    r.value == s[r.start..r.end] && IsDelimChar(s[r.start]) &&
    r.value == Repeat(s[r.start], r.end - r.start)
  }

  /** Runs in increasing position, without overlap. */
  ghost predicate Sorted(runs: seq<DelimRun>)
  {
    forall a, b :: 0 <= a < b < |runs| ==> runs[a].end <= runs[b].start
  }

  ghost predicate AllShaped(s: string, runs: seq<DelimRun>)
  {
    forall k :: 0 <= k < |runs| ==> RunShape(s, runs[k])
  }

  /** Run k covers position j. */
  predicate Covers(runs: seq<DelimRun>, k: nat, j: nat)
  {
    k < |runs| && runs[k].start <= j < runs[k].end
  }

  /** Every delimiter character at or after position i lies in some run. */
  ghost predicate CoversFrom(s: string, runs: seq<DelimRun>, i: nat)
  {
    forall j :: i <= j < |s| && IsDelimChar(s[j]) ==> exists k: nat :: Covers(runs, k, j)
  }

  /** End of the maximal run of s[i] starting at i. */
  function RunEnd(s: string, i: nat): (e: nat)
    requires i < |s|
    ensures i < e <= |s|
    ensures forall j :: i <= j < e ==> s[j] == s[i]
    ensures e == |s| || s[e] != s[i]
    decreases |s| - i
  {
    if i + 1 < |s| && s[i + 1] == s[i] then RunEnd(s, i + 1) else i + 1
  }

  /** A run as the regular expression match (_+|\*+|~+|=+) yields it, before preprocessing. */
  function MakeRun(s: string, start: nat, end: nat, punct: char -> bool): DelimRun
    requires start < end <= |s|
  {
    DelimRun(s[start..end], None, Flank(s, start, end, punct), start, end, end - start)
  }

  /** The run cannot be extended: the characters just before and after it differ from it. */
  predicate Maximal(s: string, r: DelimRun)
  {
    r.start < r.end <= |s| &&
    (r.start == 0 || s[r.start - 1] != s[r.start]) && (r.end == |s| || s[r.end] != s[r.start])
  }

  /** Position i does not continue a delimiter run that began before it. */
  predicate FreshStart(s: string, i: nat)
  {
    0 < i < |s| ==> !IsDelimChar(s[i - 1]) || s[i - 1] != s[i]
  }

  /** A run as the scan from position i yields it: maximal, unassigned, with its flank direction. */
  predicate Scanned(s: string, punct: char -> bool, i: nat, r: DelimRun)
  {
    i <= r.start && Maximal(s, r) && r.action.None? && r.flank == Flank(s, r.start, r.end, punct)
  }

  /** The successive maximal runs that start at or after position i. */
  function ScanFrom(s: string, punct: char -> bool, i: nat): (runs: seq<DelimRun>)
    requires i <= |s| && FreshStart(s, i)
    decreases |s| - i
  {
    if i == |s| then []
    else if IsDelimChar(s[i]) then [MakeRun(s, i, RunEnd(s, i), punct)] + ScanFrom(s, punct, RunEnd(s, i))
    else ScanFrom(s, punct, i + 1)
  }

  /**
   * The scan from i yields shaped, ordered runs covering every delimiter
   * from i on, each maximal and classified by its flanks.
   */
  lemma {:induction false} ScanFromOk(s: string, punct: char -> bool, i: nat)
    requires i <= |s| && FreshStart(s, i)
    ensures ScanGood(s, punct, i, ScanFrom(s, punct, i))
    decreases |s| - i
  {
    if i < |s| {
      if IsDelimChar(s[i]) {
        var e := RunEnd(s, i);
        ScanRunAt(s, punct, i);
        ScanFromOk(s, punct, e);
        ScanCons(s, punct, i, e, ScanFrom(s, punct, e));
      } else {
        assert FreshStart(s, i + 1);
        assert ScanFrom(s, punct, i) == ScanFrom(s, punct, i + 1);
        ScanFromOk(s, punct, i + 1);
        ScanSkipOne(s, punct, i, ScanFrom(s, punct, i + 1));
      }
    }
  }

  /** What the scan from i guarantees: shaped, in order, covering every delimiter from i on, each run as scanned. */
  ghost predicate ScanGood(s: string, punct: char -> bool, i: nat, runs: seq<DelimRun>)
  {
    AllShaped(s, runs) && Sorted(runs) && CoversFrom(s, runs, i) &&
    forall k :: 0 <= k < |runs| ==> Scanned(s, punct, i, runs[k])
  }

  // Putting the maximal run at i in front of the runs after it keeps each of
  // the scan's guarantees; one lemma per guarantee keeps the proofs small.

  lemma ScanConsShaped(s: string, punct: char -> bool, i: nat, e: nat, rest: seq<DelimRun>)
    requires i < |s| && IsDelimChar(s[i]) && e == RunEnd(s, i)
    requires AllShaped(s, rest)
    ensures AllShaped(s, [MakeRun(s, i, e, punct)] + rest)
  {
    var runs := [MakeRun(s, i, e, punct)] + rest;
    FirstRunShape(s, punct, i, e);
    forall k | 0 <= k < |runs| ensures RunShape(s, runs[k]) {
      if k > 0 { assert runs[k] == rest[k - 1]; }
    }
  }

  lemma ScanConsSorted(s: string, punct: char -> bool, i: nat, e: nat, rest: seq<DelimRun>)
    requires i < e <= |s|
    requires Sorted(rest) && forall k :: 0 <= k < |rest| ==> e <= rest[k].start
    ensures Sorted([MakeRun(s, i, e, punct)] + rest)
  {
    var runs := [MakeRun(s, i, e, punct)] + rest;
    forall a, b | 0 <= a < b < |runs| ensures runs[a].end <= runs[b].start {
      assert runs[b] == rest[b - 1];
      if a > 0 { assert runs[a] == rest[a - 1]; }
    }
  }

  lemma ScanConsCovers(s: string, punct: char -> bool, i: nat, e: nat, rest: seq<DelimRun>)
    requires i < e <= |s|
    requires CoversFrom(s, rest, e)
    ensures CoversFrom(s, [MakeRun(s, i, e, punct)] + rest, i)
  {
    var runs := [MakeRun(s, i, e, punct)] + rest;
    forall j | i <= j < |s| && IsDelimChar(s[j]) ensures exists k: nat :: Covers(runs, k, j) {
      if j < e {
        assert Covers(runs, 0, j);
      } else {
        var k: nat :| Covers(rest, k, j);
        assert Covers(runs, k + 1, j);
      }
    }
  }

  lemma ScanConsRuns(s: string, punct: char -> bool, i: nat, e: nat, rest: seq<DelimRun>)
    requires i < |s| && IsDelimChar(s[i]) && e == RunEnd(s, i) && FreshStart(s, i)
    requires forall k :: 0 <= k < |rest| ==> Scanned(s, punct, e, rest[k])
    ensures var runs := [MakeRun(s, i, e, punct)] + rest;
            forall k :: 0 <= k < |runs| ==> Scanned(s, punct, i, runs[k])
  {
    var runs := [MakeRun(s, i, e, punct)] + rest;
    forall k | 0 <= k < |runs| ensures Scanned(s, punct, i, runs[k]) {
      if k > 0 { assert runs[k] == rest[k - 1]; }
    }
  }

  lemma ScanCons(s: string, punct: char -> bool, i: nat, e: nat, rest: seq<DelimRun>)
    requires i < |s| && IsDelimChar(s[i]) && e == RunEnd(s, i) && FreshStart(s, i)
    requires ScanGood(s, punct, e, rest)
    ensures ScanGood(s, punct, i, [MakeRun(s, i, e, punct)] + rest)
  {
    ScanConsShaped(s, punct, i, e, rest);
    assert forall k :: 0 <= k < |rest| ==> e <= rest[k].start by {
      forall k | 0 <= k < |rest| ensures e <= rest[k].start {
        assert Scanned(s, punct, e, rest[k]);
      }
    }
    ScanConsSorted(s, punct, i, e, rest);
    ScanConsCovers(s, punct, i, e, rest);
    ScanConsRuns(s, punct, i, e, rest);
  }

  lemma ScanSkipOne(s: string, punct: char -> bool, i: nat, runs: seq<DelimRun>)
    requires i < |s| && !IsDelimChar(s[i])
    requires ScanGood(s, punct, i + 1, runs)
    ensures ScanGood(s, punct, i, runs)
  {
    forall k | 0 <= k < |runs| ensures Scanned(s, punct, i, runs[k]) {
      assert Scanned(s, punct, i + 1, runs[k]);
    }
  }

  lemma FirstRunShape(s: string, punct: char -> bool, i: nat, e: nat)
    requires i < |s| && IsDelimChar(s[i]) && e == RunEnd(s, i)
    ensures RunShape(s, MakeRun(s, i, e, punct))
  {
    var r := MakeRun(s, i, e, punct);
    assert r.start == i && r.end == e && r.length == e - i && r.value == s[i..e];
    UniformRunShape(s, r);
  }

  /** A run whose text is its slice of s, all one delimiter character, has the run shape. */
  lemma UniformRunShape(s: string, r: DelimRun)
    requires r.start < r.end <= |s| && r.length == r.end - r.start && r.value == s[r.start..r.end]
    requires IsDelimChar(s[r.start]) && forall j :: r.start <= j < r.end ==> s[j] == s[r.start]
    ensures RunShape(s, r)
  {
    SliceIsRepeat(s, r.start, r.end, s[r.start]);
  }

  /** The scan passes over characters that are not delimiters. */
  lemma {:induction false} ScanSkip(s: string, punct: char -> bool, i: nat, j: nat)
    requires i <= j <= |s| && FreshStart(s, i)
    requires forall k :: i <= k < j ==> !IsDelimChar(s[k])
    ensures FreshStart(s, j) && ScanFrom(s, punct, i) == ScanFrom(s, punct, j)
    decreases j - i
  {
    if i < j {
      ScanSkip(s, punct, i + 1, j);
    }
  }

  /** At a delimiter the scan yields the maximal run there, then goes on after it. */
  lemma ScanRunAt(s: string, punct: char -> bool, i: nat)
    requires i < |s| && IsDelimChar(s[i]) && FreshStart(s, i)
    ensures FreshStart(s, RunEnd(s, i))
    ensures ScanFrom(s, punct, i) == [MakeRun(s, i, RunEnd(s, i), punct)] + ScanFrom(s, punct, RunEnd(s, i))
  {
  }

  /** All maximal delimiter runs of `s`, in order. */
  function Scan(s: string, punct: char -> bool): (runs: seq<DelimRun>)
    ensures AllShaped(s, runs) && Sorted(runs) && CoversFrom(s, runs, 0)
    ensures forall k :: 0 <= k < |runs| ==> Scanned(s, punct, 0, runs[k])
  {
    ScanFromOk(s, punct, 0);
    ScanFrom(s, punct, 0)
  }

  // ---------------------------------------------------------------------
  // Filtering

  /**
   * The filter's test: a run is kept when it has a symbol, an asterisk run is
   * at most 3 long, and a "~~" or "==" run at most 2. Underscore runs are not
   * limited.
   */
  predicate Keep(run: DelimRun)
  {
    var symbol := GetTokenSymbol(run);
    !(symbol.None? ||
      (symbol.value == "*" && run.length > 3) ||
      ((symbol.value == "~~" || symbol.value == "==") && run.length > 2))
  }

  /** The runs that pass Keep, in their original order. */
  function FilterRuns(runs: seq<DelimRun>): (kept: seq<DelimRun>)
    ensures |kept| <= |runs|
    ensures forall r :: r in kept <==> r in runs && Keep(r)
    ensures forall k :: 0 <= k < |kept| ==>
              GetTokenSymbol(kept[k]).Some? && GetTokenSymbol(kept[k]).value in RunSymbols
  {
    if runs == [] then []
    else if Keep(runs[0]) then [runs[0]] + FilterRuns(runs[1..])
    else FilterRuns(runs[1..])
  }

  /**
   * The shape of a run that survives the filter, by its character: any '_'
   * run, a '*' run of at most three, or exactly "~~" or "==".
   */
  ghost predicate KeptShape(s: string, r: DelimRun)
    requires RunShape(s, r)
  {
    var c := s[r.start];
    c == '_' || (c == '*' && r.length <= 3) || ((c == '~' || c == '=') && r.length == 2)
  }

  /** On a maximal-run shape, the filter's symbol-based test is KeptShape. */
  lemma KeepIffShape(s: string, r: DelimRun)
    requires RunShape(s, r)
    ensures Keep(r) <==> KeptShape(s, r)
  {
    UniformSymbol(r.value, s[r.start]);
  }

  /** Shaped runs that all have the kept shape. */
  ghost predicate AllKept(s: string, runs: seq<DelimRun>)
  {
    AllShaped(s, runs) && forall k :: 0 <= k < |runs| ==> KeptShape(s, runs[k])
  }

  /**
   * What the filter keeps has the kept shape; a lone '~' or '=' and a '*'
   * run longer than three are gone.
   */
  lemma {:induction false} FilterShapes(s: string, runs: seq<DelimRun>)
    requires AllShaped(s, runs)
    ensures AllKept(s, FilterRuns(runs))
  {
    if runs != [] {
      var rest := FilterRuns(runs[1..]);
      assert AllShaped(s, runs[1..]) by {
        forall k | 0 <= k < |runs[1..]| ensures runs[1..][k] == runs[k + 1] { }
      }
      FilterShapes(s, runs[1..]);
      KeepIffShape(s, runs[0]);
      if Keep(runs[0]) {
        var kept := [runs[0]] + rest;
        forall k | 0 <= k < |kept| ensures RunShape(s, kept[k]) && KeptShape(s, kept[k]) {
          if k > 0 { assert kept[k] == rest[k - 1]; }
        }
      }
    }
  }

  /** The filter keeps the runs in order. */
  lemma {:induction false} FilterSorted(runs: seq<DelimRun>)
    requires Sorted(runs)
    ensures Sorted(FilterRuns(runs))
  {
    if runs != [] {
      var rest := FilterRuns(runs[1..]);
      FilterSorted(runs[1..]);
      if Keep(runs[0]) {
        forall k | 0 <= k < |rest| ensures runs[0].end <= rest[k].start {
          assert rest[k] in runs[1..];
          var j :| 0 <= j < |runs[1..]| && runs[1..][j] == rest[k];
          assert runs[j + 1] == rest[k];
        }
        ConsSorted(runs[0], rest);
      }
    }
  }

  lemma ConsSorted(r: DelimRun, rest: seq<DelimRun>)
    requires Sorted(rest) && forall k :: 0 <= k < |rest| ==> r.end <= rest[k].start
    ensures Sorted([r] + rest)
  {
    var runs := [r] + rest;
    forall a, b | 0 <= a < b < |runs| ensures runs[a].end <= runs[b].start {
      assert runs[b] == rest[b - 1];
      if a > 0 { assert runs[a] == rest[a - 1]; }
    }
  }

  /** The filter drops a list whose every run fails it. */
  lemma {:induction false} FilterNone(runs: seq<DelimRun>)
    requires forall k :: 0 <= k < |runs| ==> !Keep(runs[k])
    ensures FilterRuns(runs) == []
  {
    if runs != [] {
      assert !Keep(runs[0]);
      FilterNone(runs[1..]);
    }
  }

  /** The filter keeps a list whose every run passes it. */
  lemma {:induction false} FilterKeepsAll(runs: seq<DelimRun>)
    requires forall k :: 0 <= k < |runs| ==> Keep(runs[k])
    ensures FilterRuns(runs) == runs
  {
    if runs != [] {
      FilterKeepsAll(runs[1..]);
    }
  }
}
