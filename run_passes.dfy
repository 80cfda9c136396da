/**
 * The two passes the tokenizer's constructor makes over the scanned runs
 * before tokenizing: escape preprocessing (preprocessEscapeChars) and
 * action assignment (assignActionTypes), as functions over the run list.
 * The Tokenizer class carries them out in place and is proved to agree.
 */
module RunPasses {
  import opened Wrappers
  import opened DelimRuns

  // ---------------------------------------------------------------------
  // Escape preprocessing

  /** The run without its first character: it now starts one position later. */
  function DropFirst(r: DelimRun): (d: DelimRun)
    requires |r.value| >= 1 && r.length >= 1
    ensures d.end == r.end && d.start == r.start + 1 && d.length == r.length - 1
  {
    r.(value := r.value[1..], start := r.start + 1, length := r.length - 1)
  }

  /** Runs that keep their shape and order. */
  ghost predicate RunsOk(s: string, runs: seq<DelimRun>)
  {
    AllShaped(s, runs) && Sorted(runs)
  }

  /**
   * What the preprocessing loop knows about runIdx at the top of iteration
   * i: it counts the runs that ended before i, and a position strictly inside
   * the run it points at is reached only with an even backslash count.
   */
  ghost predicate IndexOk(i: nat, count: nat, runIdx: nat, runs: seq<DelimRun>)
  {
    runIdx <= |runs| &&
    (forall k :: 0 <= k < runIdx ==> runs[k].end < i) &&
    (runIdx < |runs| ==> i <= runs[runIdx].end) &&
    (runIdx < |runs| && runs[runIdx].start < i < runs[runIdx].end ==> count % 2 == 0)
  }

  /**
   * The state of the preprocessing loop at the top of iteration i: the runs
   * keep their shape and order, every delimiter at or after i still lies in a
   * run, and runIdx is as IndexOk says.
   */
  ghost predicate EscapeInv(s: string, i: nat, count: nat, runIdx: nat, runs: seq<DelimRun>)
  {
    i <= |s| && RunsOk(s, runs) && CoversFrom(s, runs, i) && IndexOk(i, count, runIdx, runs)
  }

  /** runIdx after the catch-up test at the top of iteration i. */
  function CaughtUp(i: nat, runIdx: nat, runs: seq<DelimRun>): nat
  {
    if runIdx < |runs| && i >= runs[runIdx].end then runIdx + 1 else runIdx
  }

  /** `o` is `r`, or `r` without its first character when `r` starts at or after i. */
  predicate ShrinkOf(o: DelimRun, r: DelimRun, i: nat)
  {
    o == r || (|r.value| >= 1 && r.length >= 1 && o == DropFirst(r) && i <= r.start)
  }

  /** Every run of `out` is a shrink of some run of `runs`. */
  ghost predicate ShrunkFrom(out: seq<DelimRun>, runs: seq<DelimRun>, i: nat)
  {
    forall o :: o in out ==> exists r :: r in runs && ShrinkOf(o, r, i)
  }

  /** A run whose value holds exactly its length, at least one, characters. */
  predicate WellFormed(r: DelimRun)
  {
    r.length >= 1 && |r.value| == r.length
  }

  predicate AllWellFormed(runs: seq<DelimRun>)
  {
    forall k :: 0 <= k < |runs| ==> WellFormed(runs[k])
  }

  /**
   * The loop of preprocessEscapeChars from iteration i on. An odd backslash
   * count before a delimiter escapes it: a one-character run is deleted, a
   * longer run loses its first character and the rest of it is skipped. The
   * count is reset only when an escape fires. None stands for the
   * IndexOutOfBoundsException of runs.get(runIdx) when an escape fires with
   * no run left to take it; EscapeScanOk shows this never happens on the
   * runs the scanner produces.
   */
  function EscapeScan(s: string, i: nat, count: nat, runIdx: nat, runs: seq<DelimRun>): (out: Option<seq<DelimRun>>)
    requires AllWellFormed(runs)
    ensures out.Some? ==> |out.value| <= |runs| && AllWellFormed(out.value)
    decreases |s| - i
  {
    if i >= |s| then Some(runs)
    else
      var idx := CaughtUp(i, runIdx, runs);
      var c := s[i];
      if c == '\\' then EscapeScan(s, i + 1, count + 1, idx, runs)
      else if !IsDelimChar(c) || count % 2 == 0 then EscapeScan(s, i + 1, count, idx, runs)
      else if idx >= |runs| then None
      else
        var run := runs[idx];
        if run.length == 1 then
          EscapeScan(s, i + 1, 0, idx, runs[..idx] + runs[idx + 1..])
        else
          var shrunk := DropFirst(run);
          EscapeScan(s, i + shrunk.length + 1, 0, idx, runs[idx := shrunk])
  }

  /** Facts about iteration i once runIdx has caught up. */
  lemma EscapeCatchUp(i: nat, count: nat, runIdx: nat, runs: seq<DelimRun>)
    requires Sorted(runs) && IndexOk(i, count, runIdx, runs)
    requires forall k :: 0 <= k < |runs| ==> runs[k].start < runs[k].end
    ensures var idx := CaughtUp(i, runIdx, runs);
            idx <= |runs| && (forall k :: 0 <= k < idx ==> runs[k].end <= i) &&
            (idx < |runs| ==> i < runs[idx].end) &&
            (idx < |runs| && runs[idx].start < i ==> count % 2 == 0)
  {
    var idx := CaughtUp(i, runIdx, runs);
    if idx != runIdx && idx < |runs| {
      assert runs[runIdx].end <= runs[idx].start;
    }
  }

  /** The character at a position inside a shaped run is the run's character. */
  lemma InsideRun(s: string, r: DelimRun, j: nat)
    requires RunShape(s, r) && r.start <= j < r.end
    ensures s[j] == s[r.start] && IsDelimChar(s[j])
  {
    assert s[j] == r.value[j - r.start];
    RepeatAt(s[r.start], r.end - r.start, j - r.start);
  }

  /** An iteration that escapes nothing keeps the invariant. */
  lemma EscapeNoFire(s: string, i: nat, count: nat, runIdx: nat, runs: seq<DelimRun>, count': nat)
    requires EscapeInv(s, i, count, runIdx, runs) && i < |s|
    requires count' == (if s[i] == '\\' then count + 1 else count)
    requires s[i] != '\\' ==> !IsDelimChar(s[i]) || count % 2 == 0
    ensures EscapeInv(s, i + 1, count', CaughtUp(i, runIdx, runs), runs)
  {
    var idx := CaughtUp(i, runIdx, runs);
    EscapeCatchUp(i, count, runIdx, runs);
    if idx < |runs| && runs[idx].start < i + 1 < runs[idx].end {
      assert RunShape(s, runs[idx]);
      InsideRun(s, runs[idx], i);
    }
  }

  /** When an escape fires at i, the run being reached is the one that starts at i. */
  lemma EscapeFiresAtStart(s: string, i: nat, count: nat, runIdx: nat, runs: seq<DelimRun>)
    requires EscapeInv(s, i, count, runIdx, runs) && i < |s|
    requires IsDelimChar(s[i]) && count % 2 != 0
    ensures var idx := CaughtUp(i, runIdx, runs);
            idx < |runs| && runs[idx].start == i && RunShape(s, runs[idx])
  {
    var idx := CaughtUp(i, runIdx, runs);
    FiringRun(s, i, count, runIdx, runs);
    assert RunShape(s, runs[idx]);
  }

  lemma FiringRun(s: string, i: nat, count: nat, runIdx: nat, runs: seq<DelimRun>)
    requires Sorted(runs) && IndexOk(i, count, runIdx, runs) && CoversFrom(s, runs, i) && i < |s|
    requires forall k :: 0 <= k < |runs| ==> runs[k].start < runs[k].end
    requires IsDelimChar(s[i]) && count % 2 != 0
    ensures var idx := CaughtUp(i, runIdx, runs);
            idx < |runs| && runs[idx].start == i
  {
    var idx := CaughtUp(i, runIdx, runs);
    EscapeCatchUp(i, count, runIdx, runs);
    var k: nat :| Covers(runs, k, i);
  }

  /** Deleting a run keeps the others shaped and in order. */
  lemma RemoveKeepsOrder(s: string, runs: seq<DelimRun>, idx: nat)
    requires idx < |runs| && RunsOk(s, runs)
    ensures RunsOk(s, runs[..idx] + runs[idx + 1..])
  {
    var rest := runs[..idx] + runs[idx + 1..];
    forall a | 0 <= a < |rest| ensures rest[a] == runs[if a < idx then a else a + 1] { }
  }

  /** Deleting a run that covers only position i keeps every later delimiter covered. */
  lemma RemoveKeepsCover(s: string, runs: seq<DelimRun>, idx: nat, i: nat)
    requires idx < |runs| && runs[idx].start == i && runs[idx].end == i + 1
    requires CoversFrom(s, runs, i)
    ensures CoversFrom(s, runs[..idx] + runs[idx + 1..], i + 1)
  {
    var rest := runs[..idx] + runs[idx + 1..];
    forall j | i + 1 <= j < |s| && IsDelimChar(s[j]) ensures exists k: nat :: Covers(rest, k, j) {
      var k: nat :| Covers(runs, k, j);
      if k < idx {
        assert Covers(rest, k, j);
      } else {
        assert Covers(rest, k - 1, j);
      }
    }
  }

  /** After deleting the run at idx, which ended at i + 1, runIdx still counts the runs before i + 1. */
  lemma RemoveKeepsIndex(i: nat, count: nat, idx: nat, runs: seq<DelimRun>)
    requires Sorted(runs) && idx < |runs| && runs[idx].start == i && runs[idx].end == i + 1
    requires forall k :: 0 <= k < idx ==> runs[k].end <= i
    requires forall k :: 0 <= k < |runs| ==> runs[k].start < runs[k].end
    ensures IndexOk(i + 1, 0, idx, runs[..idx] + runs[idx + 1..])
  {
    var rest := runs[..idx] + runs[idx + 1..];
    forall k | 0 <= k < idx ensures rest[k].end < i + 1 {
      assert rest[k] == runs[k];
    }
    if idx < |rest| {
      assert rest[idx] == runs[idx + 1];
      assert runs[idx].end <= runs[idx + 1].start;
    }
  }

  /** Deleting the escaped one-character run keeps the invariant. */
  lemma EscapeRemove(s: string, i: nat, count: nat, runIdx: nat, runs: seq<DelimRun>)
    requires EscapeInv(s, i, count, runIdx, runs) && i < |s|
    requires var idx := CaughtUp(i, runIdx, runs);
             idx < |runs| && runs[idx].start == i && runs[idx].length == 1 && RunShape(s, runs[idx])
    ensures var idx := CaughtUp(i, runIdx, runs);
            EscapeInv(s, i + 1, 0, idx, runs[..idx] + runs[idx + 1..])
  {
    var idx := CaughtUp(i, runIdx, runs);
    EscapeCatchUp(i, count, runIdx, runs);
    RemoveKeepsOrder(s, runs, idx);
    RemoveKeepsCover(s, runs, idx, i);
    RemoveKeepsIndex(i, count, idx, runs);
  }

  /** Replacing a run by itself without its first character keeps the runs shaped and in order. */
  lemma ShrinkKeepsOrder(s: string, runs: seq<DelimRun>, idx: nat)
    requires idx < |runs| && RunsOk(s, runs) && runs[idx].length > 1
    ensures |runs[idx].value| >= 1
    ensures RunsOk(s, runs[idx := DropFirst(runs[idx])])
  {
    var run := runs[idx];
    assert RunShape(s, run);
    var shrunk := DropFirst(run);
    InsideRun(s, run, run.start + 1);
    assert shrunk.value == s[shrunk.start..shrunk.end];
    assert RunShape(s, shrunk);
  }

  /** The shrunk run no longer covers anything at or after its end, which is where the scan resumes. */
  lemma ShrinkKeepsCover(s: string, runs: seq<DelimRun>, idx: nat, i: nat)
    requires idx < |runs| && runs[idx].start == i < runs[idx].end && |runs[idx].value| >= 1 && runs[idx].length >= 1
    requires CoversFrom(s, runs, i)
    ensures CoversFrom(s, runs[idx := DropFirst(runs[idx])], runs[idx].end)
  {
    var runs' := runs[idx := DropFirst(runs[idx])];
    forall j | runs[idx].end <= j < |s| && IsDelimChar(s[j]) ensures exists k: nat :: Covers(runs', k, j) {
      var k: nat :| Covers(runs, k, j);
      assert k != idx;
      assert Covers(runs', k, j);
    }
  }

  /** Shrinking the escaped run and skipping the rest of it keeps the invariant. */
  lemma EscapeShrink(s: string, i: nat, count: nat, runIdx: nat, runs: seq<DelimRun>)
    requires EscapeInv(s, i, count, runIdx, runs) && i < |s|
    requires var idx := CaughtUp(i, runIdx, runs);
             idx < |runs| && runs[idx].start == i && runs[idx].length > 1 && RunShape(s, runs[idx])
    ensures var idx := CaughtUp(i, runIdx, runs);
            |runs[idx].value| >= 1 && i < i + runs[idx].length == runs[idx].end &&
            EscapeInv(s, i + runs[idx].length, 0, idx, runs[idx := DropFirst(runs[idx])])
  {
    var idx := CaughtUp(i, runIdx, runs);
    EscapeCatchUp(i, count, runIdx, runs);
    ShrinkKeepsOrder(s, runs, idx);
    ShrinkKeepsCover(s, runs, idx, i);
  }

  /** One step of the preprocessing loop when no escape fires at i. */
  lemma UnfoldNoFire(s: string, i: nat, count: nat, runIdx: nat, runs: seq<DelimRun>, count': nat)
    requires AllWellFormed(runs) && i < |s|
    requires count' == (if s[i] == '\\' then count + 1 else count)
    requires s[i] != '\\' ==> !IsDelimChar(s[i]) || count % 2 == 0
    ensures EscapeScan(s, i, count, runIdx, runs) == EscapeScan(s, i + 1, count', CaughtUp(i, runIdx, runs), runs)
  {
  }

  /** One step of the preprocessing loop when an escape fires at i on the run at idx. */
  lemma UnfoldFire(s: string, i: nat, count: nat, runIdx: nat, runs: seq<DelimRun>)
    requires AllWellFormed(runs) && i < |s|
    requires s[i] != '\\' && IsDelimChar(s[i]) && count % 2 != 0
    requires CaughtUp(i, runIdx, runs) < |runs|
    ensures var idx := CaughtUp(i, runIdx, runs);
            var run := runs[idx];
            EscapeScan(s, i, count, runIdx, runs) ==
              if run.length == 1 then EscapeScan(s, i + 1, 0, idx, runs[..idx] + runs[idx + 1..])
              else EscapeScan(s, i + run.length, 0, idx, runs[idx := DropFirst(run)])
  {
  }

  /**
   * The preprocessing loop at the top of iteration i, with the escape count
   * and run index it has, is on its way to `result`.
   */
  ghost predicate EscapeLoop(s: string, i: nat, count: nat, runIdx: nat, runs: seq<DelimRun>, result: seq<DelimRun>)
  {
    AllWellFormed(runs) && EscapeScan(s, i, count, runIdx, runs) == Some(result)
  }

  /**
   * On the runs the scan produces the preprocessing loop does not fail, and
   * preprocessEscapeChars is that loop when there are runs at all.
   */
  lemma PreprocessByLoop(s: string, runs: seq<DelimRun>)
    requires AllShaped(s, runs) && Sorted(runs) && CoversFrom(s, runs, 0)
    ensures AllWellFormed(runs) && (|runs| == 0 || EscapeScan(s, 0, 0, 0, runs).Some?)
    ensures Preprocess(s, runs) == if |runs| == 0 then runs else EscapeScan(s, 0, 0, 0, runs).value
  {
    ShapedWellFormed(s, runs);
    EscapeScanOk(s, 0, 0, 0, runs);
  }

  /** An iteration in which no escape fires: only the count and the run index move. */
  lemma LoopNoFire(s: string, i: nat, count: nat, runIdx: nat, runs: seq<DelimRun>, result: seq<DelimRun>, count': nat)
    requires EscapeLoop(s, i, count, runIdx, runs, result) && i < |s|
    requires count' == (if s[i] == '\\' then count + 1 else count)
    requires s[i] != '\\' ==> !IsDelimChar(s[i]) || count % 2 == 0
    ensures EscapeLoop(s, i + 1, count', CaughtUp(i, runIdx, runs), runs, result)
  {
    UnfoldNoFire(s, i, count, runIdx, runs, count');
  }

  /** When an escape fires there is a run to take it. */
  lemma LoopHasRun(s: string, i: nat, count: nat, runIdx: nat, runs: seq<DelimRun>, result: seq<DelimRun>)
    requires EscapeLoop(s, i, count, runIdx, runs, result) && i < |s|
    requires s[i] != '\\' && IsDelimChar(s[i]) && count % 2 != 0
    ensures CaughtUp(i, runIdx, runs) < |runs|
  {
    if CaughtUp(i, runIdx, runs) >= |runs| {
      UnfoldNoRun(s, i, count, runIdx, runs);
    }
  }

  /** An escape on a one-character run: the run is deleted. */
  lemma LoopRemove(s: string, i: nat, count: nat, runIdx: nat, runs: seq<DelimRun>, result: seq<DelimRun>, idx: nat)
    requires EscapeLoop(s, i, count, runIdx, runs, result) && i < |s|
    requires s[i] != '\\' && IsDelimChar(s[i]) && count % 2 != 0
    requires idx == CaughtUp(i, runIdx, runs) && idx < |runs| && runs[idx].length == 1
    ensures EscapeLoop(s, i + 1, 0, idx, runs[..idx] + runs[idx + 1..], result)
  {
    UnfoldRemove(s, i, count, runIdx, runs, idx);
  }

  /** An escape on a longer run: its first character goes and the rest of it is skipped. */
  lemma LoopShrink(s: string, i: nat, count: nat, runIdx: nat, runs: seq<DelimRun>, result: seq<DelimRun>, idx: nat, shrunk: DelimRun)
    requires EscapeLoop(s, i, count, runIdx, runs, result) && i < |s|
    requires s[i] != '\\' && IsDelimChar(s[i]) && count % 2 != 0
    requires idx == CaughtUp(i, runIdx, runs) && idx < |runs| && runs[idx].length != 1
    requires shrunk == DropFirst(runs[idx])
    ensures EscapeLoop(s, i + shrunk.length + 1, 0, idx, runs[idx := shrunk], result)
  {
    UnfoldShrink(s, i, count, runIdx, runs, idx, shrunk);
  }

  /** Past the end of the string the loop has produced its result. */
  lemma LoopEnd(s: string, i: nat, count: nat, runIdx: nat, runs: seq<DelimRun>, result: seq<DelimRun>)
    requires EscapeLoop(s, i, count, runIdx, runs, result) && i >= |s|
    ensures runs == result
  {
  }

  /** An escape that fires on a run of one character deletes the run. */
  lemma UnfoldRemove(s: string, i: nat, count: nat, runIdx: nat, runs: seq<DelimRun>, idx: nat)
    requires AllWellFormed(runs) && i < |s|
    requires s[i] != '\\' && IsDelimChar(s[i]) && count % 2 != 0
    requires idx == CaughtUp(i, runIdx, runs) && idx < |runs| && runs[idx].length == 1
    ensures AllWellFormed(runs[..idx] + runs[idx + 1..])
    ensures EscapeScan(s, i, count, runIdx, runs) == EscapeScan(s, i + 1, 0, idx, runs[..idx] + runs[idx + 1..])
  {
    var rest := runs[..idx] + runs[idx + 1..];
    forall k | 0 <= k < |rest| ensures WellFormed(rest[k]) {
      if k < idx { assert rest[k] == runs[k]; } else { assert rest[k] == runs[k + 1]; }
    }
  }

  /** An escape that fires on a longer run takes its first character off and skips the rest of it. */
  lemma UnfoldShrink(s: string, i: nat, count: nat, runIdx: nat, runs: seq<DelimRun>, idx: nat, shrunk: DelimRun)
    requires AllWellFormed(runs) && i < |s|
    requires s[i] != '\\' && IsDelimChar(s[i]) && count % 2 != 0
    requires idx == CaughtUp(i, runIdx, runs) && idx < |runs| && runs[idx].length != 1
    requires shrunk == DropFirst(runs[idx])
    ensures AllWellFormed(runs[idx := shrunk])
    ensures EscapeScan(s, i, count, runIdx, runs) == EscapeScan(s, i + shrunk.length + 1, 0, idx, runs[idx := shrunk])
  {
  }

  /** An escape that fires with no run left to take it is the IndexOutOfBoundsException. */
  lemma UnfoldNoRun(s: string, i: nat, count: nat, runIdx: nat, runs: seq<DelimRun>)
    requires AllWellFormed(runs) && i < |s|
    requires s[i] != '\\' && IsDelimChar(s[i]) && count % 2 != 0
    requires CaughtUp(i, runIdx, runs) >= |runs|
    ensures EscapeScan(s, i, count, runIdx, runs) == None
  {
  }

  /** Shaped runs are well formed. */
  lemma ShapedWellFormed(s: string, runs: seq<DelimRun>)
    requires AllShaped(s, runs)
    ensures AllWellFormed(runs)
  {
    forall k | 0 <= k < |runs| ensures WellFormed(runs[k]) {
      assert RunShape(s, runs[k]);
    }
  }

  /**
   * The preprocessing loop from this state does not fail, hands on runs that
   * keep their shape and order, and each of them is one of the given runs,
   * possibly without its first character if it starts at or after i.
   */
  ghost predicate ScanOk(s: string, i: nat, count: nat, runIdx: nat, runs: seq<DelimRun>)
  {
    AllWellFormed(runs) &&
    var out := EscapeScan(s, i, count, runIdx, runs);
    out.Some? && RunsOk(s, out.value) && ShrunkFrom(out.value, runs, i)
  }

  /**
   * From a state satisfying the invariant the preprocessing loop never runs
   * out of runs, and hands on runs that keep their shape and order.
   */
  lemma {:induction false} EscapeScanOk(s: string, i: nat, count: nat, runIdx: nat, runs: seq<DelimRun>)
    requires EscapeInv(s, i, count, runIdx, runs)
    ensures ScanOk(s, i, count, runIdx, runs)
    decreases |s| - i, 1
  {
    ShapedWellFormed(s, runs);
    if i >= |s| {
      EndStep(s, i, count, runIdx, runs);
    } else {
      if s[i] == '\\' || !IsDelimChar(s[i]) || count % 2 == 0 {
        var count' := if s[i] == '\\' then count + 1 else count;
        EscapeNoFire(s, i, count, runIdx, runs, count');
        EscapeScanOk(s, i + 1, count', CaughtUp(i, runIdx, runs), runs);
        NoFireStep(s, i, count, runIdx, runs, count');
      } else {
        EscapeFiresAtStart(s, i, count, runIdx, runs);
        if runs[CaughtUp(i, runIdx, runs)].length == 1 {
          EscapeRemove(s, i, count, runIdx, runs);
          EscapeRemoveOk(s, i, count, runIdx, runs);
        } else {
          EscapeShrink(s, i, count, runIdx, runs);
          EscapeShrinkOk(s, i, count, runIdx, runs);
        }
      }
    }
  }

  /** The step of EscapeScanOk that deletes an escaped one-character run. */
  lemma {:induction false} EscapeRemoveOk(s: string, i: nat, count: nat, runIdx: nat, runs: seq<DelimRun>)
    requires AllWellFormed(runs) && i < |s|
    requires s[i] != '\\' && IsDelimChar(s[i]) && count % 2 != 0
    requires var idx := CaughtUp(i, runIdx, runs);
             idx < |runs| && runs[idx].length == 1 &&
             EscapeInv(s, i + 1, 0, idx, runs[..idx] + runs[idx + 1..])
    ensures ScanOk(s, i, count, runIdx, runs)
    decreases |s| - i, 0
  {
    var idx := CaughtUp(i, runIdx, runs);
    EscapeScanOk(s, i + 1, 0, idx, runs[..idx] + runs[idx + 1..]);
    RemoveStep(s, i, count, runIdx, runs);
  }

  /** The step of EscapeScanOk that shrinks an escaped longer run. */
  lemma {:induction false} EscapeShrinkOk(s: string, i: nat, count: nat, runIdx: nat, runs: seq<DelimRun>)
    requires AllWellFormed(runs) && i < |s|
    requires s[i] != '\\' && IsDelimChar(s[i]) && count % 2 != 0
    requires var idx := CaughtUp(i, runIdx, runs);
             idx < |runs| && runs[idx].length > 1 && runs[idx].start == i &&
             EscapeInv(s, i + runs[idx].length, 0, idx, runs[idx := DropFirst(runs[idx])])
    ensures ScanOk(s, i, count, runIdx, runs)
    decreases |s| - i, 0
  {
    var idx := CaughtUp(i, runIdx, runs);
    var runs' := runs[idx := DropFirst(runs[idx])];
    EscapeScanOk(s, i + runs[idx].length, 0, idx, runs');
    ShrinkStep(s, i, count, runIdx, runs, idx, runs');
  }

  lemma EndStep(s: string, i: nat, count: nat, runIdx: nat, runs: seq<DelimRun>)
    requires AllWellFormed(runs) && RunsOk(s, runs) && i >= |s|
    ensures ScanOk(s, i, count, runIdx, runs)
  {
    forall o | o in runs ensures exists r :: r in runs && ShrinkOf(o, r, i) {
      assert ShrinkOf(o, o, i);
    }
  }

  lemma NoFireStep(s: string, i: nat, count: nat, runIdx: nat, runs: seq<DelimRun>, count': nat)
    requires AllWellFormed(runs) && i < |s|
    requires count' == (if s[i] == '\\' then count + 1 else count)
    requires s[i] != '\\' ==> !IsDelimChar(s[i]) || count % 2 == 0
    requires ScanOk(s, i + 1, count', CaughtUp(i, runIdx, runs), runs)
    ensures ScanOk(s, i, count, runIdx, runs)
  {
    UnfoldNoFire(s, i, count, runIdx, runs, count');
    LaterShrink(EscapeScan(s, i, count, runIdx, runs).value, runs, runs, i);
  }

  lemma RemoveStep(s: string, i: nat, count: nat, runIdx: nat, runs: seq<DelimRun>)
    requires AllWellFormed(runs) && i < |s|
    requires s[i] != '\\' && IsDelimChar(s[i]) && count % 2 != 0
    requires var idx := CaughtUp(i, runIdx, runs);
             idx < |runs| && runs[idx].length == 1 &&
             ScanOk(s, i + 1, 0, idx, runs[..idx] + runs[idx + 1..])
    ensures ScanOk(s, i, count, runIdx, runs)
  {
    var idx := CaughtUp(i, runIdx, runs);
    UnfoldFire(s, i, count, runIdx, runs);
    RemovedIn(runs, idx);
    LaterShrink(EscapeScan(s, i, count, runIdx, runs).value, runs[..idx] + runs[idx + 1..], runs, i);
  }

  lemma ShrinkStep(s: string, i: nat, count: nat, runIdx: nat, runs: seq<DelimRun>, idx: nat, runs': seq<DelimRun>)
    requires AllWellFormed(runs) && i < |s|
    requires s[i] != '\\' && IsDelimChar(s[i]) && count % 2 != 0
    requires idx == CaughtUp(i, runIdx, runs) && idx < |runs| && runs[idx].length != 1 && runs[idx].start == i
    requires runs' == runs[idx := DropFirst(runs[idx])] && ScanOk(s, i + runs[idx].length, 0, idx, runs')
    ensures ScanOk(s, i, count, runIdx, runs)
  {
    var next := EscapeScan(s, i + runs[idx].length, 0, idx, runs');
    ShrunkShrink(next.value, runs, idx, i, i + runs[idx].length);
    UnfoldFire(s, i, count, runIdx, runs);
  }

  /** Deleting a run keeps the others, and keeps them well formed. */
  lemma RemovedIn(runs: seq<DelimRun>, idx: nat)
    requires idx < |runs|
    ensures forall r :: r in runs[..idx] + runs[idx + 1..] ==> r in runs
    ensures AllWellFormed(runs) ==> AllWellFormed(runs[..idx] + runs[idx + 1..])
  {
    var rest := runs[..idx] + runs[idx + 1..];
    forall a | 0 <= a < |rest| ensures rest[a] == runs[if a < idx then a else a + 1] { }
  }

  /** Shrinks of the runs after the escaped run was shrunk are shrinks of the original runs. */
  lemma ShrunkShrink(out: seq<DelimRun>, runs: seq<DelimRun>, idx: nat, i: nat, i': nat)
    requires idx < |runs| && runs[idx].start == i && |runs[idx].value| >= 1 && runs[idx].length >= 1
    requires i <= i' && DropFirst(runs[idx]).start < i'
    requires ShrunkFrom(out, runs[idx := DropFirst(runs[idx])], i')
    ensures ShrunkFrom(out, runs, i)
  {
    var shrunk := DropFirst(runs[idx]);
    forall o | o in out ensures exists r :: r in runs && ShrinkOf(o, r, i) {
      var r :| r in runs[idx := shrunk] && ShrinkOf(o, r, i');
      if r == shrunk {
        assert ShrinkOf(o, runs[idx], i);
      } else {
        var k :| 0 <= k < |runs[idx := shrunk]| && runs[idx := shrunk][k] == r;
        assert runs[k] == r && ShrinkOf(o, r, i);
      }
    }
  }

  /** Shrinks seen from a later position are shrinks from i. */
  lemma LaterShrink(out: seq<DelimRun>, mid: seq<DelimRun>, runs: seq<DelimRun>, i: nat)
    requires forall r :: r in mid ==> r in runs
    requires ShrunkFrom(out, mid, i + 1)
    ensures ShrunkFrom(out, runs, i)
  {
    forall o | o in out ensures exists r :: r in runs && ShrinkOf(o, r, i) {
      var r :| r in mid && ShrinkOf(o, r, i + 1);
      assert ShrinkOf(o, r, i);
    }
  }

  /** Without a backslash ahead and with no backslash counted, the loop changes no run. */
  lemma {:induction false} EscapeScanNoBackslash(s: string, i: nat, runIdx: nat, runs: seq<DelimRun>)
    requires AllWellFormed(runs)
    requires forall j :: i <= j < |s| ==> s[j] != '\\'
    ensures EscapeScan(s, i, 0, runIdx, runs) == Some(runs)
    decreases |s| - i
  {
    if i < |s| {
      EscapeScanNoBackslash(s, i + 1, CaughtUp(i, runIdx, runs), runs);
    }
  }

  /** preprocessEscapeChars: nothing to do without runs, else the loop from position 0. */
  function Preprocess(s: string, runs: seq<DelimRun>): (out: seq<DelimRun>)
    requires AllShaped(s, runs) && Sorted(runs) && CoversFrom(s, runs, 0)
    ensures AllShaped(s, out) && Sorted(out) && |out| <= |runs|
    ensures ShrunkFrom(out, runs, 0)
  {
    if |runs| == 0 then runs
    else
      EscapeScanOk(s, 0, 0, 0, runs);
      EscapeScan(s, 0, 0, 0, runs).value
  }

  /** A string without backslashes escapes nothing: preprocessing leaves the runs as they are. */
  lemma PreprocessNoBackslash(s: string, runs: seq<DelimRun>)
    requires AllShaped(s, runs) && Sorted(runs) && CoversFrom(s, runs, 0)
    requires forall j :: 0 <= j < |s| ==> s[j] != '\\'
    ensures Preprocess(s, runs) == runs
  {
    if |runs| != 0 {
      ShapedWellFormed(s, runs);
      EscapeScanNoBackslash(s, 0, 0, runs);
    }
  }

  /**
   * Iterations i up to j in which no escape fires, because there is no
   * backslash and, with an odd count, no delimiter either: the count stays
   * and the loop goes on from j.
   */
  lemma {:induction false} NoFireUpTo(s: string, i: nat, j: nat, count: nat, runIdx: nat, runs: seq<DelimRun>)
    returns (idx: nat)
    requires EscapeInv(s, i, count, runIdx, runs) && i <= j <= |s|
    requires forall m :: i <= m < j ==> s[m] != '\\' && (count % 2 == 0 || !IsDelimChar(s[m]))
    ensures EscapeInv(s, j, count, idx, runs)
    ensures EscapeScan(s, i, count, runIdx, runs) == EscapeScan(s, j, count, idx, runs)
    decreases j - i
  {
    if i == j {
      idx := runIdx;
    } else {
      ShapedWellFormed(s, runs);
      UnfoldNoFire(s, i, count, runIdx, runs, count);
      EscapeNoFire(s, i, count, runIdx, runs, count);
      idx := NoFireUpTo(s, i + 1, j, count, CaughtUp(i, runIdx, runs), runs);
    }
  }

  /** In sorted runs, a start position names one run only. */
  lemma SameStart(runs: seq<DelimRun>, a: nat, b: nat)
    requires Sorted(runs) && a < |runs| && b < |runs| && runs[a].start == runs[b].start
    requires forall k :: 0 <= k < |runs| ==> runs[k].start < runs[k].end
    ensures a == b
  {
  }

  /** The backslash at p, and then ordinary characters up to q: the loop reaches q with the count odd. */
  lemma EscapeReaches(s: string, runs: seq<DelimRun>, p: nat, q: nat) returns (idx: nat)
    requires AllShaped(s, runs) && Sorted(runs) && CoversFrom(s, runs, 0)
    requires p < q <= |s| && s[p] == '\\' && forall j :: 0 <= j < q && j != p ==> s[j] != '\\'
    requires forall j :: p < j < q ==> !IsDelimChar(s[j])
    ensures EscapeInv(s, q, 1, idx, runs)
    ensures EscapeScan(s, 0, 0, 0, runs) == EscapeScan(s, q, 1, idx, runs)
  {
    assert EscapeInv(s, 0, 0, 0, runs);
    var i0 := NoFireUpTo(s, 0, p, 0, 0, runs);
    var i1 := BackslashStep(s, p, i0, runs);
    idx := NoFireUpTo(s, p + 1, q, 1, i1, runs);
  }

  /** The first backslash makes the count odd. */
  lemma BackslashStep(s: string, p: nat, runIdx: nat, runs: seq<DelimRun>) returns (idx: nat)
    requires EscapeInv(s, p, 0, runIdx, runs) && p < |s| && s[p] == '\\'
    ensures AllWellFormed(runs) && EscapeInv(s, p + 1, 1, idx, runs)
    ensures EscapeScan(s, p, 0, runIdx, runs) == EscapeScan(s, p + 1, 1, idx, runs)
  {
    ShapedWellFormed(s, runs);
    UnfoldNoFire(s, p, 0, runIdx, runs, 1);
    EscapeNoFire(s, p, 0, runIdx, runs, 1);
    idx := CaughtUp(p, runIdx, runs);
  }

  /** The run starting at q is escaped, and with no backslash left nothing else changes. */
  lemma EscapeFires(s: string, q: nat, runIdx: nat, runs: seq<DelimRun>, k: nat)
    requires EscapeInv(s, q, 1, runIdx, runs) && q < |s|
    requires forall j :: q <= j < |s| ==> s[j] != '\\'
    requires k < |runs| && runs[k].start == q
    ensures |runs[k].value| >= 1 && runs[k].length >= 1
    ensures EscapeScan(s, q, 1, runIdx, runs) ==
      Some(if runs[k].length == 1 then runs[..k] + runs[k + 1..] else runs[k := DropFirst(runs[k])])
  {
    EscapeFiresAt(s, q, runIdx, runs, k);
    if runs[k].length == 1 {
      EscapeFireRemove(s, q, runIdx, runs, k);
    } else {
      EscapeFireShrink(s, q, runIdx, runs, k);
    }
  }

  /** The escape at q is taken by the run that starts at q. */
  lemma EscapeFiresAt(s: string, q: nat, runIdx: nat, runs: seq<DelimRun>, k: nat)
    requires EscapeInv(s, q, 1, runIdx, runs) && q < |s|
    requires k < |runs| && runs[k].start == q
    ensures CaughtUp(q, runIdx, runs) == k && RunShape(s, runs[k]) && IsDelimChar(s[q])
    ensures AllWellFormed(runs)
  {
    assert RunShape(s, runs[k]);
    ShapedWellFormed(s, runs);
    EscapeFiresAtStart(s, q, 1, runIdx, runs);
    SameStart(runs, CaughtUp(q, runIdx, runs), k);
  }

  /** Escaping a one-character run deletes it, and nothing after it changes. */
  lemma EscapeFireRemove(s: string, q: nat, runIdx: nat, runs: seq<DelimRun>, k: nat)
    requires AllWellFormed(runs) && q < |s|
    requires forall j :: q <= j < |s| ==> s[j] != '\\'
    requires k < |runs| && CaughtUp(q, runIdx, runs) == k && IsDelimChar(s[q]) && runs[k].length == 1
    ensures EscapeScan(s, q, 1, runIdx, runs) == Some(runs[..k] + runs[k + 1..])
  {
    UnfoldFire(s, q, 1, runIdx, runs);
    var rest := runs[..k] + runs[k + 1..];
    RemovedIn(runs, k);
    EscapeScanNoBackslash(s, q + 1, k, rest);
  }

  /** Escaping a longer run drops its first character, and nothing after it changes. */
  lemma EscapeFireShrink(s: string, q: nat, runIdx: nat, runs: seq<DelimRun>, k: nat)
    requires AllWellFormed(runs) && q < |s|
    requires forall j :: q <= j < |s| ==> s[j] != '\\'
    requires k < |runs| && CaughtUp(q, runIdx, runs) == k && IsDelimChar(s[q]) && runs[k].length > 1
    ensures |runs[k].value| >= 1
    ensures EscapeScan(s, q, 1, runIdx, runs) == Some(runs[k := DropFirst(runs[k])])
  {
    UnfoldFire(s, q, 1, runIdx, runs);
    var rest := runs[k := DropFirst(runs[k])];
    ShrinkWellFormed(runs, k);
    EscapeScanNoBackslash(s, q + runs[k].length, k, rest);
  }

  /** Dropping the first character of a longer run keeps it well formed. */
  lemma ShrinkWellFormed(runs: seq<DelimRun>, k: nat)
    requires AllWellFormed(runs) && k < |runs| && runs[k].length > 1
    ensures AllWellFormed(runs[k := DropFirst(runs[k])])
  {
    assert WellFormed(runs[k]);
  }

  /**
   * A string with a single backslash, at p: the first delimiter after it,
   * which starts run k at q, is escaped, whatever ordinary characters stand
   * between them, since the count is only reset when an escape fires. A
   * one-character run k is deleted, a longer one loses its first character,
   * and every other run stays as it is.
   */
  lemma OneEscape(s: string, runs: seq<DelimRun>, p: nat, q: nat, k: nat)
    requires AllShaped(s, runs) && Sorted(runs) && CoversFrom(s, runs, 0)
    requires p < q < |s| && s[p] == '\\' && forall j :: 0 <= j < |s| && j != p ==> s[j] != '\\'
    requires forall j :: p < j < q ==> !IsDelimChar(s[j])
    requires k < |runs| && runs[k].start == q
    ensures |runs[k].value| >= 1 && runs[k].length >= 1
    ensures Preprocess(s, runs) ==
      if runs[k].length == 1 then runs[..k] + runs[k + 1..] else runs[k := DropFirst(runs[k])]
  {
    PreprocessByLoop(s, runs);
    var idx := EscapeReaches(s, runs, p, q);
    EscapeFires(s, q, idx, runs, k);
  }

  // ---------------------------------------------------------------------
  // Action assignment

  /** Every entry of the open list names a run. */
  predicate OpenIndices(runs: seq<DelimRun>, open: seq<nat>)
  {
    forall p :: 0 <= p < |open| ==> open[p] < |runs|
  }

  /** The position in the open list of the first open run whose value is v (findFirst). */
  function FirstMatch(runs: seq<DelimRun>, open: seq<nat>, v: string): (m: Option<nat>)
    requires OpenIndices(runs, open)
    ensures m.Some? ==> m.value < |open| && runs[open[m.value]].value == v &&
                        forall p :: 0 <= p < m.value ==> runs[open[p]].value != v
    ensures m.None? ==> forall p :: 0 <= p < |open| ==> runs[open[p]].value != v
  {
    if open == [] then None
    else if runs[open[0]].value == v then Some(0)
    else
      match FirstMatch(runs, open[1..], v)
      case None => None
      case Some(p) => Some(p + 1)
  }

  function WithAction(r: DelimRun, a: ActionType): DelimRun
  {
    r.(action := Some(a))
  }

  /**
   * The action a run receives, by its flank direction: LEFT opens, RIGHT
   * closes, BOTH does one of the two, NEITHER keeps the action it had.
   */
  predicate ActionFits(r: DelimRun, a: Option<ActionType>)
  {
    match r.flank
    case Left => a == Some(Open)
    case Right => a == Some(Close)
    case Both => a.Some?
    case Neither => a == r.action
  }

  /**
   * The loop of assignActionTypes from run i on, with the open list as the
   * indices of the runs still open. LEFT opens; RIGHT closes; BOTH closes
   * the first open run with the same value and removes it from the list, or
   * opens when there is none; NEITHER is left alone.
   */
  function AssignFrom(runs: seq<DelimRun>, i: nat, open: seq<nat>): (out: seq<DelimRun>)
    requires i <= |runs| && OpenIndices(runs, open)
    ensures |out| == |runs|
    ensures forall k :: 0 <= k < |runs| ==> out[k] == runs[k].(action := out[k].action)
    ensures forall k :: 0 <= k < i ==> out[k] == runs[k]
    ensures forall k :: i <= k < |runs| ==> ActionFits(runs[k], out[k].action)
    decreases |runs| - i
  {
    if i == |runs| then runs
    else
      var run := runs[i];
      match run.flank
      case Left => AssignFrom(runs[i := WithAction(run, Open)], i + 1, open + [i])
      case Right => AssignFrom(runs[i := WithAction(run, Close)], i + 1, open)
      case Both =>
        (match FirstMatch(runs, open, run.value)
         case Some(p) => AssignFrom(runs[i := WithAction(run, Close)], i + 1, open[..p] + open[p + 1..])
         case None => AssignFrom(runs[i := WithAction(run, Open)], i + 1, open + [i]))
      case Neither => AssignFrom(runs, i + 1, open)
  }

  /** assignActionTypes: the loop from the first run with an empty open list. */
  function AssignActions(runs: seq<DelimRun>): (out: seq<DelimRun>)
    ensures |out| == |runs|
    ensures forall k :: 0 <= k < |runs| ==> out[k] == runs[k].(action := out[k].action)
    ensures forall k :: 0 <= k < |runs| ==> ActionFits(runs[k], out[k].action)
  {
    AssignFrom(runs, 0, [])
  }

  /** The open list names runs before i, in order, each marked OPEN. */
  ghost predicate OpenInv(runs: seq<DelimRun>, i: nat, open: seq<nat>)
  {
    OpenIndices(runs, open) &&
    forall p :: 0 <= p < |open| ==> open[p] < i && runs[open[p]].action == Some(Open)
  }

  /** Every BOTH run before i that was marked CLOSE has an earlier run with its value marked OPEN. */
  ghost predicate MatchedBefore(runs: seq<DelimRun>, i: nat)
  {
    forall k :: 0 <= k < i && k < |runs| && runs[k].flank == Both && runs[k].action == Some(Close) ==>
      exists j :: 0 <= j < k && runs[j].value == runs[k].value && runs[j].action == Some(Open)
  }

  /** A BOTH run only closes when a run with its value was opened before it. */
  lemma {:induction false} AssignMatched(runs: seq<DelimRun>, i: nat, open: seq<nat>)
    requires i <= |runs| && OpenInv(runs, i, open) && MatchedBefore(runs, i)
    ensures MatchedBefore(AssignFrom(runs, i, open), |runs|)
    decreases |runs| - i
  {
    if i < |runs| {
      var runs', open' := AssignStep(runs, i, open);
      AssignMatched(runs', i + 1, open');
    }
  }

  /** One pass of the loop of assignActionTypes keeps the open list and the matching intact. */
  lemma AssignStep(runs: seq<DelimRun>, i: nat, open: seq<nat>) returns (runs': seq<DelimRun>, open': seq<nat>)
    requires i < |runs| && OpenInv(runs, i, open) && MatchedBefore(runs, i)
    ensures |runs'| == |runs| && OpenInv(runs', i + 1, open') && MatchedBefore(runs', i + 1)
    ensures AssignFrom(runs, i, open) == AssignFrom(runs', i + 1, open')
  {
    var run := runs[i];
    match run.flank
    case Left =>
      runs', open' := runs[i := WithAction(run, Open)], open + [i];
      MarkKeepsMatched(runs, i, Open);
      MarkKeepsOpen(runs, i, open, Open);
    case Right =>
      runs', open' := runs[i := WithAction(run, Close)], open;
      MarkKeepsMatched(runs, i, Close);
      MarkKeepsOpen(runs, i, open, Close);
    case Both =>
      match FirstMatch(runs, open, run.value) {
        case Some(p) =>
          runs', open' := runs[i := WithAction(run, Close)], open[..p] + open[p + 1..];
          CloseKeepsMatched(runs, i, open, p);
          MarkKeepsOpen(runs, i, open, Close);
          DropKeepsOpen(runs', i + 1, open, p);
        case None =>
          runs', open' := runs[i := WithAction(run, Open)], open + [i];
          MarkKeepsMatched(runs, i, Open);
          MarkKeepsOpen(runs, i, open, Open);
      }
    case Neither =>
      runs', open' := runs, open;
  }

  /** Marking run i, other than a BOTH run marked CLOSE, keeps the runs before i + 1 matched. */
  lemma MarkKeepsMatched(runs: seq<DelimRun>, i: nat, a: ActionType)
    requires i < |runs| && MatchedBefore(runs, i)
    requires runs[i].flank == Both ==> a == Open
    ensures MatchedBefore(runs[i := WithAction(runs[i], a)], i + 1)
  {
    var runs' := runs[i := WithAction(runs[i], a)];
    forall k | 0 <= k < i + 1 && k < |runs'| && runs'[k].flank == Both && runs'[k].action == Some(Close)
      ensures exists j :: 0 <= j < k && runs'[j].value == runs'[k].value && runs'[j].action == Some(Open)
    {
      var j :| 0 <= j < k && runs[j].value == runs[k].value && runs[j].action == Some(Open);
      assert runs'[j] == runs[j];
    }
  }

  /** Closing BOTH run i against the open run at position p of the list keeps the runs before i + 1 matched. */
  lemma CloseKeepsMatched(runs: seq<DelimRun>, i: nat, open: seq<nat>, p: nat)
    requires i < |runs| && MatchedBefore(runs, i) && OpenInv(runs, i, open)
    requires p < |open| && runs[open[p]].value == runs[i].value
    ensures MatchedBefore(runs[i := WithAction(runs[i], Close)], i + 1)
  {
    var runs' := runs[i := WithAction(runs[i], Close)];
    forall k | 0 <= k < i + 1 && k < |runs'| && runs'[k].flank == Both && runs'[k].action == Some(Close)
      ensures exists j :: 0 <= j < k && runs'[j].value == runs'[k].value && runs'[j].action == Some(Open)
    {
      if k == i {
        var j := open[p];
        assert runs'[j] == runs[j];
      } else {
        var j :| 0 <= j < k && runs[j].value == runs[k].value && runs[j].action == Some(Open);
        assert runs'[j] == runs[j];
      }
    }
  }

  /** Marking run i leaves the runs the open list names, all before i, as they were. */
  lemma MarkKeepsOpen(runs: seq<DelimRun>, i: nat, open: seq<nat>, a: ActionType)
    requires i < |runs| && OpenInv(runs, i, open)
    ensures OpenInv(runs[i := WithAction(runs[i], a)], i + 1, open)
    ensures a == Open ==> OpenInv(runs[i := WithAction(runs[i], a)], i + 1, open + [i])
  {
    var runs' := runs[i := WithAction(runs[i], a)];
    forall p | 0 <= p < |open| ensures runs'[open[p]] == runs[open[p]] { }
    if a == Open {
      var open' := open + [i];
      forall p | 0 <= p < |open'| ensures open'[p] < i + 1 && runs'[open'[p]].action == Some(Open) {
        if p < |open| { assert open'[p] == open[p]; }
      }
    }
  }

  /** Removing an entry keeps the open list's invariant. */
  lemma DropKeepsOpen(runs: seq<DelimRun>, i: nat, open: seq<nat>, p: nat)
    requires OpenInv(runs, i, open) && p < |open|
    ensures OpenInv(runs, i, open[..p] + open[p + 1..])
  {
    var open' := open[..p] + open[p + 1..];
    forall q | 0 <= q < |open'| ensures open'[q] == open[if q < p then q else q + 1] { }
  }

  /** In the assigned runs, a BOTH run marked CLOSE has an earlier run with its value marked OPEN. */
  lemma AssignActionsMatched(runs: seq<DelimRun>, k: nat)
    requires k < |runs| && runs[k].flank == Both && AssignActions(runs)[k].action == Some(Close)
    ensures exists j :: 0 <= j < k && runs[j].value == runs[k].value && AssignActions(runs)[j].action == Some(Open)
  {
    var out := AssignActions(runs);
    AssignMatched(runs, 0, []);
    assert out[k].flank == Both && out[k].value == runs[k].value;
    var j :| 0 <= j < k && out[j].value == out[k].value && out[j].action == Some(Open);
    assert out[j].value == runs[j].value;
  }

  /**
   * What one assigned run does to the open runs of value v: a LEFT or BOTH
   * run marked OPEN adds one, a BOTH run marked CLOSE consumes one, any other
   * run leaves them alone.
   */
  function Effect(r: DelimRun, v: string): int
  {
    if r.value != v then 0
    else if r.flank != Neither && r.action == Some(Open) then 1
    else if r.flank == Both && r.action == Some(Close) then -1
    else 0
  }

  /** How many runs of value v the assigned runs leave open: OPEN runs minus BOTH runs that closed one. */
  function Balance(rs: seq<DelimRun>, v: string): int
  {
    if rs == [] then 0 else Balance(DropLastRun(rs), v) + Effect(rs[|rs| - 1], v)
  }

  function DropLastRun(rs: seq<DelimRun>): seq<DelimRun>
    requires |rs| > 0
  {
    rs[..|rs| - 1]
  }

  /** How many entries of the open list name a run of value v. */
  function OpenWith(runs: seq<DelimRun>, open: seq<nat>, v: string): (n: nat)
    requires OpenIndices(runs, open)
    ensures n <= |open|
  {
    if open == [] then 0
    else (if runs[open[0]].value == v then 1 else 0) + OpenWith(runs, open[1..], v)
  }

  /** findFirst succeeds exactly when some entry of the open list has value v. */
  lemma {:induction false} FirstMatchIffOpen(runs: seq<DelimRun>, open: seq<nat>, v: string)
    requires OpenIndices(runs, open)
    ensures FirstMatch(runs, open, v).Some? <==> OpenWith(runs, open, v) > 0
  {
    if open != [] && runs[open[0]].value != v {
      FirstMatchIffOpen(runs, open[1..], v);
    }
  }

  /** Appending run i to the open list adds one for its value. */
  lemma {:induction false} OpenWithAppend(runs: seq<DelimRun>, open: seq<nat>, i: nat, v: string)
    requires OpenIndices(runs, open) && i < |runs|
    ensures OpenIndices(runs, open + [i])
    ensures OpenWith(runs, open + [i], v) == OpenWith(runs, open, v) + (if runs[i].value == v then 1 else 0)
  {
    if open != [] {
      assert (open + [i])[1..] == open[1..] + [i];
      OpenWithAppend(runs, open[1..], i, v);
    }
  }

  /** Removing entry p of the open list subtracts one for its value. */
  lemma {:induction false} OpenWithRemove(runs: seq<DelimRun>, open: seq<nat>, p: nat, v: string)
    requires OpenIndices(runs, open) && p < |open|
    ensures OpenIndices(runs, open[..p] + open[p + 1..])
    ensures OpenWith(runs, open[..p] + open[p + 1..], v) ==
            OpenWith(runs, open, v) - (if runs[open[p]].value == v then 1 else 0)
  {
    var rest := open[..p] + open[p + 1..];
    if p == 0 {
      assert rest == open[1..];
    } else {
      var tail := open[1..];
      assert rest[0] == open[0];
      assert rest[1..] == tail[..p - 1] + tail[p..] by {
        forall j | 0 <= j < |rest| - 1 ensures rest[1..][j] == (tail[..p - 1] + tail[p..])[j] {
          if j < p - 1 { assert rest[j + 1] == open[j + 1]; } else { assert rest[j + 1] == open[j + 2]; }
        }
      }
      OpenWithRemove(runs, tail, p - 1, v);
    }
  }

  /** Only the values of the runs matter to OpenWith. */
  lemma {:induction false} OpenWithValues(runs: seq<DelimRun>, runs': seq<DelimRun>, open: seq<nat>, v: string)
    requires OpenIndices(runs, open) && |runs'| == |runs|
    requires forall j :: 0 <= j < |runs| ==> runs'[j].value == runs[j].value
    ensures OpenWith(runs', open, v) == OpenWith(runs, open, v)
  {
    if open != [] {
      OpenWithValues(runs, runs', open[1..], v);
    }
  }

  /** The open list of the loop holds, for every value, as many runs as the runs before i leave open. */
  ghost predicate OpenBalance(runs: seq<DelimRun>, i: nat, open: seq<nat>)
    requires i <= |runs| && OpenIndices(runs, open)
  {
    forall v :: OpenWith(runs, open, v) == Balance(runs[..i], v)
  }

  /** Marking run i with action a adds that run's effect to every balance. */
  lemma MarkBalance(runs: seq<DelimRun>, i: nat, a: Option<ActionType>, v: string)
    requires i < |runs|
    ensures Balance(runs[i := runs[i].(action := a)][..i + 1], v) ==
            Balance(runs[..i], v) + Effect(runs[i].(action := a), v)
  {
    var runs' := runs[i := runs[i].(action := a)];
    assert DropLastRun(runs'[..i + 1]) == runs[..i];
  }

  /** One pass of the loop keeps the open list in step with the balance. */
  lemma BalanceStep(runs: seq<DelimRun>, i: nat, open: seq<nat>) returns (runs': seq<DelimRun>, open': seq<nat>)
    requires i < |runs| && OpenIndices(runs, open) && OpenBalance(runs, i, open)
    ensures |runs'| == |runs| && OpenIndices(runs', open') && OpenBalance(runs', i + 1, open')
    ensures runs'[i + 1..] == runs[i + 1..] && runs'[..i] == runs[..i]
    ensures AssignFrom(runs, i, open) == AssignFrom(runs', i + 1, open')
    ensures runs[i].flank == Both ==>
      runs'[i] == runs[i].(action := if Balance(runs[..i], runs[i].value) > 0 then Some(Close) else Some(Open))
  {
    runs', open' := AssignPass(runs, i, open);
    var run := runs[i];
    var m := FirstMatch(runs, open, run.value);
    if run.flank == Neither {
      KeptBalance(runs, i, open, run.action);
      assert runs[i := run.(action := run.action)] == runs;
    } else if run.flank == Right {
      KeptBalance(runs, i, open, Some(Close));
    } else if run.flank == Left || m.None? {
      OpenedBalance(runs, i, open);
    } else {
      ClosedBalance(runs, i, open, m.value);
    }
    if run.flank == Both {
      FirstMatchIffOpen(runs, open, run.value);
      assert OpenWith(runs, open, run.value) == Balance(runs[..i], run.value);
    }
    UpdateSlices(runs, i, runs'[i]);
  }

  /** One pass of the assignment loop, case by case. */
  lemma AssignPass(runs: seq<DelimRun>, i: nat, open: seq<nat>) returns (runs': seq<DelimRun>, open': seq<nat>)
    requires i < |runs| && OpenIndices(runs, open)
    ensures |runs'| == |runs| && OpenIndices(runs', open')
    ensures AssignFrom(runs, i, open) == AssignFrom(runs', i + 1, open')
    ensures var run := runs[i];
            var m := FirstMatch(runs, open, run.value);
            if run.flank == Neither then runs' == runs && open' == open
            else if run.flank == Right then runs' == runs[i := WithAction(run, Close)] && open' == open
            else if run.flank == Left || m.None? then runs' == runs[i := WithAction(run, Open)] && open' == open + [i]
            else runs' == runs[i := WithAction(run, Close)] && open' == open[..m.value] + open[m.value + 1..]
  {
    var run := runs[i];
    match run.flank {
      case Left =>
        runs', open' := runs[i := WithAction(run, Open)], open + [i];
      case Right =>
        runs', open' := runs[i := WithAction(run, Close)], open;
      case Both =>
        match FirstMatch(runs, open, run.value) {
          case Some(p) =>
            runs', open' := runs[i := WithAction(run, Close)], open[..p] + open[p + 1..];
          case None =>
            runs', open' := runs[i := WithAction(run, Open)], open + [i];
        }
      case Neither =>
        runs', open' := runs, open;
    }
  }

  /** Replacing run i leaves the runs before and after it as they were. */
  lemma UpdateSlices(runs: seq<DelimRun>, i: nat, r: DelimRun)
    requires i < |runs|
    ensures runs[i := r][i + 1..] == runs[i + 1..] && runs[i := r][..i] == runs[..i]
  {
  }

  /** Marking run i OPEN and pushing it keeps the open list in step. */
  lemma OpenedBalance(runs: seq<DelimRun>, i: nat, open: seq<nat>)
    requires i < |runs| && OpenIndices(runs, open) && OpenBalance(runs, i, open) && runs[i].flank != Neither
    ensures var runs' := runs[i := WithAction(runs[i], Open)];
            OpenIndices(runs', open + [i]) && OpenBalance(runs', i + 1, open + [i])
  {
    var runs' := runs[i := WithAction(runs[i], Open)];
    OpenWithAppend(runs', open, i, runs[i].value);
    forall v ensures OpenWith(runs', open + [i], v) == Balance(runs'[..i + 1], v) {
      MarkBalance(runs, i, Some(Open), v);
      OpenWithValues(runs, runs', open, v);
      OpenWithAppend(runs', open, i, v);
    }
  }

  /** Marking a RIGHT run CLOSE, or leaving a NEITHER run, changes no balance. */
  lemma KeptBalance(runs: seq<DelimRun>, i: nat, open: seq<nat>, a: Option<ActionType>)
    requires i < |runs| && OpenIndices(runs, open) && OpenBalance(runs, i, open)
    requires (runs[i].flank == Right && a == Some(Close)) || (runs[i].flank == Neither && a == runs[i].action)
    ensures var runs' := runs[i := runs[i].(action := a)];
            OpenIndices(runs', open) && OpenBalance(runs', i + 1, open)
  {
    var runs' := runs[i := runs[i].(action := a)];
    forall v ensures OpenWith(runs', open, v) == Balance(runs'[..i + 1], v) {
      MarkBalance(runs, i, a, v);
      OpenWithValues(runs, runs', open, v);
    }
  }

  /** Marking a BOTH run CLOSE and removing its match from the open list keeps them in step. */
  lemma ClosedBalance(runs: seq<DelimRun>, i: nat, open: seq<nat>, p: nat)
    requires i < |runs| && OpenIndices(runs, open) && OpenBalance(runs, i, open) && runs[i].flank == Both
    requires p < |open| && runs[open[p]].value == runs[i].value
    ensures var runs' := runs[i := WithAction(runs[i], Close)];
            OpenIndices(runs', open[..p] + open[p + 1..]) && OpenBalance(runs', i + 1, open[..p] + open[p + 1..])
  {
    var runs' := runs[i := WithAction(runs[i], Close)];
    var open' := open[..p] + open[p + 1..];
    OpenWithRemove(runs', open, p, runs[i].value);
    forall v ensures OpenWith(runs', open', v) == Balance(runs'[..i + 1], v) {
      MarkBalance(runs, i, Some(Close), v);
      OpenWithValues(runs, runs', open, v);
      OpenWithRemove(runs', open, p, v);
    }
  }

  /**
   * A BOTH run at k at or after i closes exactly when the runs before it
   * leave a run of its value open, and the balance is never negative.
   */
  lemma {:induction false} AssignBalanceFrom(runs: seq<DelimRun>, i: nat, open: seq<nat>, k: nat)
    requires i <= k < |runs| && OpenIndices(runs, open) && OpenBalance(runs, i, open)
    ensures var out := AssignFrom(runs, i, open);
      Balance(out[..k], runs[k].value) >= 0 &&
      (runs[k].flank == Both ==>
        (out[k].action == Some(Close) <==> Balance(out[..k], runs[k].value) > 0))
    decreases k - i
  {
    var runs', open' := BalanceStep(runs, i, open);
    var out := AssignFrom(runs, i, open);
    assert runs'[k] == runs[k] || k == i;
    if i == k {
      assert out[..k] == runs'[..k] == runs[..k];
      assert out[k] == runs'[k];
      assert Balance(runs[..i], runs[k].value) == OpenWith(runs, open, runs[k].value);
    } else {
      assert runs'[k] == runs[k] by { assert runs'[k] == runs'[i + 1..][k - i - 1]; }
      AssignBalanceFrom(runs', i + 1, open', k);
    }
  }

  /**
   * assignActionTypes on a BOTH run: it closes when a run with its value is
   * still open (every OPEN run of that value before it, less those already
   * consumed by earlier BOTH runs that closed), and opens otherwise.
   */
  lemma AssignActionsBoth(runs: seq<DelimRun>, k: nat)
    requires k < |runs| && runs[k].flank == Both
    ensures var out := AssignActions(runs);
      Balance(out[..k], runs[k].value) >= 0 &&
      (out[k].action == Some(Close) <==> Balance(out[..k], runs[k].value) > 0) &&
      (out[k].action == Some(Open) <==> Balance(out[..k], runs[k].value) == 0)
  {
    assert OpenBalance(runs, 0, []);
    AssignBalanceFrom(runs, 0, [], k);
    var out := AssignActions(runs);
    assert out == AssignFrom(runs, 0, []);
    var b := Balance(out[..k], runs[k].value);
    assert b >= 0 && (out[k].action == Some(Close) <==> b > 0);
    assert ActionFits(runs[k], out[k].action);
    assert out[k].action.Some?;
    assert out[k].action == Some(Open) || out[k].action == Some(Close) by {
      match out[k].action.value
      case Open =>
      case Close =>
    }
  }

  // ---------------------------------------------------------------------
  // The runs the tokenizer starts from

  /** The action a run ends up with: OPEN for LEFT, CLOSE for RIGHT, either for BOTH, none for NEITHER. */
  predicate FlankAction(r: DelimRun)
  {
    match r.flank
    case Left => r.action == Some(Open)
    case Right => r.action == Some(Close)
    case Both => r.action.Some?
    case Neither => r.action.None?
  }

  predicate NoActions(runs: seq<DelimRun>)
  {
    forall k :: 0 <= k < |runs| ==> runs[k].action.None?
  }

  /**
   * The constructor's run list: the maximal runs, escape-preprocessed,
   * filtered, with actions assigned. They keep the shape of stretches of the
   * string, in order, each one a run the filter keeps, with the action its
   * flank direction calls for.
   */
  function InitialRuns(s: string, punct: char -> bool): (runs: seq<DelimRun>)
    ensures AllKept(s, runs) && Sorted(runs)
    ensures forall k :: 0 <= k < |runs| ==> FlankAction(runs[k])
  {
    var scanned := Scan(s, punct);
    var pre := Preprocess(s, scanned);
    var kept := FilterRuns(pre);
    FilterShapes(s, pre);
    FilterSorted(pre);
    PreprocessNoActions(s, scanned, pre);
    var out := AssignActions(kept);
    AssignKeepsShape(s, kept, out);
    out
  }

  /**
   * The constructor's run list, pass by pass: on the scanned runs the
   * escape loop does not fail, and filtering and assigning actions to what
   * it leaves gives the initial runs.
   */
  lemma InitialRunsPasses(s: string, punct: char -> bool)
    ensures var scanned := Scan(s, punct);
      AllWellFormed(scanned) && (|scanned| == 0 || EscapeScan(s, 0, 0, 0, scanned).Some?)
    ensures var scanned := Scan(s, punct);
      InitialRuns(s, punct) ==
      AssignActions(FilterRuns(if |scanned| == 0 then scanned else EscapeScan(s, 0, 0, 0, scanned).value))
  {
    PreprocessByLoop(s, Scan(s, punct));
  }

  /** Preprocessing and filtering leave the actions unassigned. */
  lemma PreprocessNoActions(s: string, scanned: seq<DelimRun>, pre: seq<DelimRun>)
    requires NoActions(scanned) && ShrunkFrom(pre, scanned, 0)
    ensures NoActions(pre) && NoActions(FilterRuns(pre))
  {
    forall k | 0 <= k < |pre| ensures pre[k].action.None? {
      assert pre[k] in pre;
      var r :| r in scanned && ShrinkOf(pre[k], r, 0);
    }
    var kept := FilterRuns(pre);
    forall k | 0 <= k < |kept| ensures kept[k].action.None? {
      assert kept[k] in kept;
    }
  }

  /** Assigning actions keeps the shape and order of the runs, and gives each the action its flank calls for. */
  lemma AssignKeepsShape(s: string, kept: seq<DelimRun>, out: seq<DelimRun>)
    requires AllKept(s, kept) && Sorted(kept) && NoActions(kept)
    requires out == AssignActions(kept)
    ensures AllKept(s, out) && Sorted(out)
    ensures forall k :: 0 <= k < |out| ==> FlankAction(out[k])
  {
    forall k | 0 <= k < |out| ensures RunShape(s, out[k]) && KeptShape(s, out[k]) && FlankAction(out[k]) {
      assert RunShape(s, kept[k]) && KeptShape(s, kept[k]);
      assert ActionFits(kept[k], out[k].action);
    }
  }
}
