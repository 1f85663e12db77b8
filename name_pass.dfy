/** The second pass of `extract_coin_identifier_from_query` (main.py): the
    scan that collects consecutive title-case or uppercase words into runs and
    keeps the longest joined run.  `NameStep` is one iteration of the source's
    loop; the rest of the module proves what the loop computes: the earliest
    of the longest maximal runs of name words. */
module NamePass {
  import opened Text

  /** The lowercase words the loop singles out before closing a run. */
  const Stopwords: seq<string> :=
    ["of", "the", "for", "and", "about", "price", "news", "market", "cap",
     "tell", "me", "what", "what's", "is", "latest", "current"]

  /** A word that may be part of a coin name: title-case or uppercase. */
  predicate IsNameToken(w: string) { IsTitle(w) || IsUpper(w) }

  /** The loop's variables `current_name_parts` and `longest_potential_name`. */
  datatype ScanState = ScanState(current: seq<string>, longest: string)

  /** Ending the run being built: the run is reset, and the longest name
      becomes the longer of the old one and the run's space-joined text, the
      old one winning a tie. */
  function CloseRun(st: ScanState): (r: ScanState)
    ensures r.current == []
    ensures |r.longest| >= |st.longest|
    ensures st.current != [] ==> |r.longest| >= |Join(" ", st.current)|
    ensures r.longest == st.longest ||
            (st.current != [] && r.longest == Join(" ", st.current) && |r.longest| > |st.longest|)
  {
    if st.current == [] then st
    else
      var candidate := Join(" ", st.current);
      ScanState([], if |candidate| > |st.longest| then candidate else st.longest)
  }

  /** One iteration of the loop over the words, branch for branch.  Every
      lowercase word ends the run, whether or not it is a stopword: the
      stopword test only decides which branch does the closing. */
  function NameStep(st: ScanState, w: string): (r: ScanState)
    ensures r == if IsNameToken(w) then ScanState(st.current + [w], st.longest) else CloseRun(st)
  {
    LowerIsNeitherTitleNorUpper(w);
    if IsLower(w) && w !in Stopwords then CloseRun(st)
    else if IsTitle(w) || IsUpper(w) then ScanState(st.current + [w], st.longest)
    else CloseRun(st)
  }

  /** The state after the loop has processed `words`. */
  function NameScan(words: seq<string>): ScanState
    decreases |words|
  {
    if words == [] then ScanState([], "")
    else NameStep(NameScan(words[..|words| - 1]), words[|words| - 1])
  }

  /** `longest_potential_name` once the still-open run has been closed. */
  function LongestName(words: seq<string>): string
  {
    CloseRun(NameScan(words)).longest
  }

  // ---------------------------------------------------------------------
  // Maximal runs of name words

  /** Where the trailing run of name words of `ws` starts (`|ws|` if the
      last word is not a name word). */
  function RunStart(ws: seq<string>): (s: nat)
    ensures s <= |ws|
    ensures forall k :: s <= k < |ws| ==> IsNameToken(ws[k])
    ensures s == 0 || !IsNameToken(ws[s - 1])
    decreases |ws|
  {
    if ws == [] || !IsNameToken(ws[|ws| - 1]) then |ws|
    else
      var p := ws[..|ws| - 1];
      assert forall k :: 0 <= k < |p| ==> p[k] == ws[k];
      RunStart(p)
  }

  /** The space-joined text of the words `ws[i..j]`. */
  function RunText(ws: seq<string>, i: int, j: int): string
    requires 0 <= i <= j <= |ws|
  {
    Join(" ", ws[i..j])
  }

  /** `ws[i..j]` is a maximal non-empty run of consecutive name words. */
  ghost predicate IsMaxRun(ws: seq<string>, i: int, j: int)
  {
    && 0 <= i < j <= |ws|
    && (forall k :: i <= k < j ==> IsNameToken(ws[k]))
    && (i == 0 || !IsNameToken(ws[i - 1]))
    && (j == |ws| || !IsNameToken(ws[j]))
  }

  /** The run `ws[i..j]` is the earliest of those with the longest text. */
  ghost predicate IsEarliestLongestRun(ws: seq<string>, i: int, j: int)
  {
    && IsMaxRun(ws, i, j)
    && (forall i', j' :: IsMaxRun(ws, i', j') ==> |RunText(ws, i', j')| <= |RunText(ws, i, j)|)
    && (forall i', j' :: IsMaxRun(ws, i', j') && i' < i ==> |RunText(ws, i', j')| < |RunText(ws, i, j)|)
  }

  /** A maximal run already followed by a non-name word within `ws`. */
  ghost predicate IsClosedRun(ws: seq<string>, i: int, j: int)
  {
    IsMaxRun(ws, i, j) && j < |ws|
  }

  ghost predicate IsBestClosedRun(ws: seq<string>, i: int, j: int)
  {
    && IsClosedRun(ws, i, j)
    && (forall i', j' :: IsClosedRun(ws, i', j') ==> |RunText(ws, i', j')| <= |RunText(ws, i, j)|)
    && (forall i', j' :: IsClosedRun(ws, i', j') && i' < i ==> |RunText(ws, i', j')| < |RunText(ws, i, j)|)
  }

  /** What the loop state means after processing `ws`: the open run is the
      trailing run of name words, and the longest name is empty exactly when
      no name word precedes that run, and otherwise is the text of the
      earliest longest closed run. */
  ghost predicate ScanInvariant(ws: seq<string>, st: ScanState)
  {
    && st.current == ws[RunStart(ws)..]
    && (st.longest == "" <==> forall k :: 0 <= k < RunStart(ws) ==> !IsNameToken(ws[k]))
    && (st.longest != "" ==> exists i, j :: IsBestClosedRun(ws, i, j) && st.longest == RunText(ws, i, j))
  }

  lemma RunStartSnoc(p: seq<string>, w: string)
    ensures RunStart(p + [w]) == if IsNameToken(w) then RunStart(p) else |p| + 1
  {
    assert (p + [w])[..|p|] == p;
  }

  /** Maximal runs of `p + [w]` that end inside `p` are those of `p`, except
      one ending at `|p|`, which needs `w` not to be a name word. */
  lemma MaxRunSnoc(p: seq<string>, w: string, i: int, j: int)
    requires j <= |p|
    ensures IsMaxRun(p + [w], i, j) <==> IsMaxRun(p, i, j) && (j < |p| || !IsNameToken(w))
    ensures 0 <= i <= j ==> RunText(p + [w], i, j) == RunText(p, i, j)
  {
    var q := p + [w];
    assert forall k :: 0 <= k < |p| ==> q[k] == p[k];
    if 0 <= i <= j {
      assert q[i..j] == p[i..j];
    }
    if j == |p| {
      assert q[j] == w;
    }
  }

  lemma MaxRunAtEndStartsAtRunStart(ws: seq<string>, i: int)
    requires IsMaxRun(ws, i, |ws|)
    ensures i == RunStart(ws)
  {
  }

  lemma ClosedRunEndsBeforeRunStart(ws: seq<string>, i: int, j: int)
    requires IsClosedRun(ws, i, j)
    ensures j < RunStart(ws)
  {
  }

  /** A name word extends the open run and leaves the closed runs alone. */
  lemma StepExtendsRun(p: seq<string>, w: string, st: ScanState)
    requires ScanInvariant(p, st)
    requires IsNameToken(w)
    ensures ScanInvariant(p + [w], ScanState(st.current + [w], st.longest))
  {
    var q := p + [w];
    var s := RunStart(p);
    RunStartSnoc(p, w);
    assert forall k :: 0 <= k < |p| ==> q[k] == p[k];
    assert q[s..] == p[s..] + [w];
    if st.longest != "" {
      var i, j :| IsBestClosedRun(p, i, j) && st.longest == RunText(p, i, j);
      forall i', j' | IsClosedRun(q, i', j')
        ensures IsClosedRun(p, i', j') && RunText(q, i', j') == RunText(p, i', j')
      {
        MaxRunSnoc(p, w, i', j');
      }
      MaxRunSnoc(p, w, i, j);
      assert IsBestClosedRun(q, i, j);
    }
  }

  /** Every closed run of `p` ends before the open run and is no longer than
      the longest name recorded. */
  lemma ClosedRunsBounded(p: seq<string>, st: ScanState, i: int, j: int)
    requires ScanInvariant(p, st)
    requires IsClosedRun(p, i, j)
    ensures st.longest != "" && |RunText(p, i, j)| <= |st.longest| && i < RunStart(p)
  {
    ClosedRunEndsBeforeRunStart(p, i, j);
    assert IsNameToken(p[i]);
    var bi, bj :| IsBestClosedRun(p, bi, bj) && st.longest == RunText(p, bi, bj);
  }

  /** A non-name word with no open run changes nothing but the position. */
  lemma StepWithoutOpenRun(p: seq<string>, w: string, st: ScanState)
    requires ScanInvariant(p, st)
    requires !IsNameToken(w) && RunStart(p) == |p|
    ensures ScanInvariant(p + [w], st)
  {
    var q := p + [w];
    RunStartSnoc(p, w);
    assert forall k :: 0 <= k < |p| ==> q[k] == p[k];
    assert q[|p|] == w;
    assert q[|q|..] == [] && p[|p|..] == [];
    if st.longest != "" {
      var bi, bj :| IsBestClosedRun(p, bi, bj) && st.longest == RunText(p, bi, bj);
      forall i', j' | IsClosedRun(q, i', j')
        ensures IsClosedRun(p, i', j') && RunText(q, i', j') == RunText(p, i', j')
      {
        MaxRunSnoc(p, w, i', j');
        if j' == |p| {
          MaxRunAtEndStartsAtRunStart(p, i');
        }
      }
      MaxRunSnoc(p, w, bi, bj);
      assert IsBestClosedRun(q, bi, bj);
    }
  }

  /** After a non-name word, a closed run is the run just closed or a closed
      run of `p`. */
  lemma ClosedRunAfterNonName(p: seq<string>, w: string, i: int, j: int)
    requires !IsNameToken(w) && IsClosedRun(p + [w], i, j)
    ensures (i == RunStart(p) && j == |p|) ||
            (IsClosedRun(p, i, j) && RunText(p + [w], i, j) == RunText(p, i, j))
  {
    MaxRunSnoc(p, w, i, j);
    if j == |p| {
      MaxRunAtEndStartsAtRunStart(p, i);
    }
  }

  /** The open run `p[RunStart(p)..]` is non-empty text and becomes a closed
      run once a non-name word follows. */
  lemma OpenRunCloses(p: seq<string>, w: string, st: ScanState)
    requires st.current == p[RunStart(p)..]
    requires !IsNameToken(w) && RunStart(p) < |p|
    ensures IsClosedRun(p + [w], RunStart(p), |p|)
    ensures RunText(p + [w], RunStart(p), |p|) == Join(" ", st.current)
    ensures |Join(" ", st.current)| > 0
  {
    var s := RunStart(p);
    OpenRunIsMaxRun(p);
    MaxRunSnoc(p, w, s, |p|);
    OpenRunText(p, w);
    JoinOfNameWordsIsNonEmpty(p, s);
  }

  /** The text of the trailing run is the same in `p + [w]`. */
  lemma OpenRunText(p: seq<string>, w: string)
    ensures RunText(p + [w], RunStart(p), |p|) == Join(" ", p[RunStart(p)..])
  {
    var s := RunStart(p);
    assert (p + [w])[s..|p|] == p[s..];
  }

  /** A non-empty trailing run of name words is a maximal run. */
  lemma OpenRunIsMaxRun(p: seq<string>)
    requires RunStart(p) < |p|
    ensures IsMaxRun(p, RunStart(p), |p|)
  {
  }

  /** Name words are non-empty, so a joined run of them is too. */
  lemma JoinOfNameWordsIsNonEmpty(p: seq<string>, s: int)
    requires 0 <= s < |p| && IsNameToken(p[s])
    ensures |Join(" ", p[s..])| > 0
  {
    assert p[s..][0] == p[s];
    TitleOrUpperIsNonEmpty(p[s]);
  }

  /** Closing a run strictly longer than every earlier one makes it the best. */
  lemma StepClosesLongerRun(p: seq<string>, w: string, st: ScanState)
    requires ScanInvariant(p, st)
    requires !IsNameToken(w) && RunStart(p) < |p|
    requires |Join(" ", st.current)| > |st.longest|
    ensures IsBestClosedRun(p + [w], RunStart(p), |p|)
  {
    var q := p + [w];
    var s := RunStart(p);
    OpenRunCloses(p, w, st);
    forall i', j' | IsClosedRun(q, i', j')
      ensures |RunText(q, i', j')| <= |RunText(q, s, |p|)|
      ensures i' < s ==> |RunText(q, i', j')| < |RunText(q, s, |p|)|
    {
      ClosedRunAfterNonName(p, w, i', j');
      if IsClosedRun(p, i', j') {
        ClosedRunsBounded(p, st, i', j');
      }
    }
  }

  /** Closing a run no longer than the recorded name keeps the recorded one. */
  lemma StepClosesShorterRun(p: seq<string>, w: string, st: ScanState, bi: int, bj: int)
    requires ScanInvariant(p, st)
    requires !IsNameToken(w) && RunStart(p) < |p|
    requires |Join(" ", st.current)| <= |st.longest|
    requires IsBestClosedRun(p, bi, bj) && st.longest == RunText(p, bi, bj)
    ensures IsBestClosedRun(p + [w], bi, bj) && RunText(p + [w], bi, bj) == st.longest
  {
    var q := p + [w];
    var s := RunStart(p);
    OpenRunCloses(p, w, st);
    ClosedRunsBounded(p, st, bi, bj);
    MaxRunSnoc(p, w, bi, bj);
    forall i', j' | IsClosedRun(q, i', j')
      ensures |RunText(q, i', j')| <= |RunText(q, bi, bj)|
      ensures i' < bi ==> |RunText(q, i', j')| < |RunText(q, bi, bj)|
    {
      ClosedRunAfterNonName(p, w, i', j');
    }
  }

  /** A non-name word closes the open run, which becomes the longest name
      exactly when its text is strictly longer than the recorded one. */
  lemma StepClosesRun(p: seq<string>, w: string, st: ScanState)
    requires ScanInvariant(p, st)
    requires !IsNameToken(w) && RunStart(p) < |p|
    ensures ScanInvariant(p + [w], CloseRun(st))
  {
    var q := p + [w];
    var s := RunStart(p);
    RunStartSnoc(p, w);
    OpenRunCloses(p, w, st);
    assert q[|q|..] == [];
    assert q[s] == p[s];
    if |Join(" ", st.current)| > |st.longest| {
      StepClosesLongerRun(p, w, st);
    } else {
      var bi, bj :| IsBestClosedRun(p, bi, bj) && st.longest == RunText(p, bi, bj);
      StepClosesShorterRun(p, w, st, bi, bj);
    }
  }

  /** One iteration of the loop preserves `ScanInvariant`. */
  lemma StepPreservesInvariant(p: seq<string>, w: string, st: ScanState)
    requires ScanInvariant(p, st)
    ensures ScanInvariant(p + [w], NameStep(st, w))
  {
    if IsNameToken(w) {
      StepExtendsRun(p, w, st);
    } else if RunStart(p) == |p| {
      assert st.current == [];
      StepWithoutOpenRun(p, w, st);
    } else {
      StepClosesRun(p, w, st);
    }
  }

  lemma {:induction false} NameScanInvariant(ws: seq<string>)
    ensures ScanInvariant(ws, NameScan(ws))
    decreases |ws|
  {
    if ws != [] {
      var p := ws[..|ws| - 1];
      assert p + [ws[|ws| - 1]] == ws;
      NameScanInvariant(p);
      StepPreservesInvariant(p, ws[|ws| - 1], NameScan(p));
    }
  }

  /** What the name pass returns: the empty string exactly when no word is
      title-case or uppercase, and otherwise the space-joined text of a
      maximal run of such words whose text is the longest, the earliest such
      run winning ties (the source replaces only on a strictly longer one). */
  lemma LongestNameIsEarliestLongestRun(ws: seq<string>)
    ensures LongestName(ws) == "" <==> forall k :: 0 <= k < |ws| ==> !IsNameToken(ws[k])
    ensures LongestName(ws) != "" ==>
              exists i, j :: IsEarliestLongestRun(ws, i, j) && LongestName(ws) == RunText(ws, i, j)
  {
    var q := ws + [""];
    NameScanInvariant(ws);
    assert !IsLower("") && !IsNameToken("");
    StepPreservesInvariant(ws, "", NameScan(ws));
    RunStartSnoc(ws, "");
    assert forall k :: 0 <= k < |ws| ==> q[k] == ws[k];
    assert q[|ws|] == "";
    if LongestName(ws) != "" {
      var i, j :| IsBestClosedRun(q, i, j) && LongestName(ws) == RunText(q, i, j);
      forall i', j' | IsMaxRun(ws, i', j')
        ensures IsClosedRun(q, i', j') && RunText(q, i', j') == RunText(ws, i', j')
      {
        MaxRunSnoc(ws, "", i', j');
      }
      forall i', j' | IsClosedRun(q, i', j')
        ensures IsMaxRun(ws, i', j')
      {
        MaxRunSnoc(ws, "", i', j');
      }
      MaxRunSnoc(ws, "", i, j);
      assert IsEarliestLongestRun(ws, i, j);
    }
  }
}
