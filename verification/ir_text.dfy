/** Text-level static features of LLVM IR shared by the two regex-based seed
    pickers: whole-word keyword counts, the indentation of `br label`, and the
    two memory/compute classifiers. */
module IrText {
  import opened Wrappers
  import opened Text

  // ---------------------------------------------------------------------------
  // Whole-word counting: len(re.findall(r"\b(k1|k2|...)\b", s))
  // ---------------------------------------------------------------------------

  /** The alternatives of a `\b(...)\b` pattern: non-empty words. */
  predicate IsKeywordList(ks: seq<string>)
  {
    forall i :: 0 <= i < |ks| ==> IsWord(ks[i])
  }

  /** A non-empty run of word characters. */
  predicate IsWord(k: string)
  {
    k != [] && forall j :: 0 <= j < |k| ==> IsWordChar(k[j])
  }

  /** `\b` before index i, where a word character follows. */
  predicate BoundaryBefore(s: string, i: nat)
    requires i <= |s|
  {
    i == 0 || !IsWordChar(s[i - 1])
  }

  /** `\b` at index j, where a word character precedes. */
  predicate BoundaryAfter(s: string, j: nat)
    requires j <= |s|
  {
    j == |s| || !IsWordChar(s[j])
  }

  /** The first alternative, in pattern order, that matches at i together with
      the closing `\b`; the result is its length. */
  function AltMatch(s: string, ks: seq<string>, i: nat): (r: Option<nat>)
    requires i <= |s|
    ensures r.Some? ==> i + r.value <= |s| && (r.value > 0 || [] in ks)
  {
    if ks == [] then None
    else if OccursAt(s, ks[0], i) && BoundaryAfter(s, i + |ks[0]|) then Some(|ks[0]|)
    else AltMatch(s, ks[1..], i)
  }

  /** A match is an alternative that occurs at i followed by `\b`; no match
      means that no alternative does. */
  lemma {:induction false} AltMatchSound(s: string, ks: seq<string>, i: nat)
    requires i <= |s|
    ensures var r := AltMatch(s, ks, i);
      && (r.Some? ==> exists k :: k in ks && |k| == r.value && OccursAt(s, k, i) && BoundaryAfter(s, i + |k|))
      && (r.None? ==> forall k :: k in ks ==> !(OccursAt(s, k, i) && BoundaryAfter(s, i + |k|)))
    decreases |ks|
  {
    if ks != [] && !(OccursAt(s, ks[0], i) && BoundaryAfter(s, i + |ks[0]|)) {
      AltMatchSound(s, ks[1..], i);
    }
  }

  /** The length of the `\b(...)\b` match at i, if one starts there. */
  function MatchAt(s: string, ks: seq<string>, i: nat): Option<nat>
    requires i <= |s|
  {
    if BoundaryBefore(s, i) then AltMatch(s, ks, i) else None
  }

  /** The number of matches `re.findall` reports when its scan stands at i:
      after a match the scan resumes at the end of the match, otherwise one
      character further on. */
  function FindAllCount(s: string, ks: seq<string>, i: nat): (n: nat)
    requires IsKeywordList(ks) && i <= |s|
    ensures n <= |s| - i
    decreases |s| - i
  {
    if i == |s| then 0
    else match MatchAt(s, ks, i)
      case Some(n) => 1 + FindAllCount(s, ks, i + n)
      case None => FindAllCount(s, ks, i + 1)
  }

  /** The end of the run of word characters that starts at i. */
  function RunEnd(s: string, i: nat): (e: nat)
    requires i <= |s|
    ensures i <= e <= |s|
    ensures e < |s| ==> !IsWordChar(s[e])
    decreases |s| - i
  {
    if i == |s| || !IsWordChar(s[i]) then i else RunEnd(s, i + 1)
  }

  /** Every character of the run from i is a word character. */
  lemma {:induction false} RunEndIsWord(s: string, i: nat)
    requires i <= |s|
    ensures forall j :: i <= j < RunEnd(s, i) ==> IsWordChar(s[j])
    decreases |s| - i
  {
    if i < |s| && IsWordChar(s[i]) {
      RunEndIsWord(s, i + 1);
    }
  }

  /** The maximal runs of word characters in s from index i on, left to right. */
  function WordRuns(s: string, i: nat): seq<string>
    requires i <= |s|
    decreases |s| - i
  {
    if i == |s| then []
    else if !IsWordChar(s[i]) then WordRuns(s, i + 1)
    else var e := RunEnd(s, i); [s[i..e]] + WordRuns(s, e)
  }

  /** How many of the runs are one of the keywords. */
  function CountIn(runs: seq<string>, ks: seq<string>): nat
  {
    if runs == [] then 0 else (if runs[0] in ks then 1 else 0) + CountIn(runs[1..], ks)
  }

  lemma CountInCons(w: string, rest: seq<string>, ks: seq<string>)
    ensures CountIn([w] + rest, ks) == (if w in ks then 1 else 0) + CountIn(rest, ks)
  {
    assert ([w] + rest)[1..] == rest;
  }

  /** At the start of a word run, a keyword matches together with the closing
      `\b` exactly when it is the whole run. */
  lemma KeywordAtRun(s: string, k: string, i: nat)
    requires IsWord(k) && i < |s| && IsWordChar(s[i])
    ensures OccursAt(s, k, i) && BoundaryAfter(s, i + |k|) <==> s[i..RunEnd(s, i)] == k
  {
    var e := RunEnd(s, i);
    RunEndIsWord(s, i);
    if OccursAt(s, k, i) && BoundaryAfter(s, i + |k|) {
      assert forall j :: i <= j < i + |k| ==> s[j] == k[j - i];
      assert e == i + |k|;
    }
  }

  /** At the start of a word run, `\b(...)\b` matches exactly when the whole
      run is one of the alternatives, and then its length is the run's. */
  lemma {:induction false} AltMatchIsWholeRun(s: string, ks: seq<string>, i: nat)
    requires IsKeywordList(ks) && i < |s| && IsWordChar(s[i])
    ensures AltMatch(s, ks, i) == if s[i..RunEnd(s, i)] in ks then Some(RunEnd(s, i) - i) else None
    decreases |ks|
  {
    if ks != [] {
      KeywordAtRun(s, ks[0], i);
      if s[i..RunEnd(s, i)] != ks[0] {
        assert IsKeywordList(ks[1..]) by {
          forall j | 0 <= j < |ks[1..]| ensures IsWord(ks[1..][j]) { assert ks[1..][j] == ks[j + 1]; }
        }
        AltMatchIsWholeRun(s, ks[1..], i);
        assert s[i..RunEnd(s, i)] in ks <==> s[i..RunEnd(s, i)] in ks[1..];
      }
    }
  }

  /** Inside a word run no match starts, so the scan moves to the run's end. */
  lemma {:induction false} FindAllSkipsRun(s: string, ks: seq<string>, j: nat, e: nat)
    requires IsKeywordList(ks) && 0 < j <= e <= |s|
    requires forall m :: j - 1 <= m < e - 1 ==> IsWordChar(s[m])
    ensures FindAllCount(s, ks, j) == FindAllCount(s, ks, e)
    decreases e - j
  {
    if j < e {
      assert MatchAt(s, ks, j) == None;
      FindAllSkipsRun(s, ks, j + 1, e);
    }
  }

  /** One step of the scan at the start of a word run. */
  lemma {:induction false} FindAllAtRun(s: string, ks: seq<string>, i: nat)
    requires IsKeywordList(ks) && i < |s| && IsWordChar(s[i])
    requires i == 0 || !IsWordChar(s[i - 1])
    ensures FindAllCount(s, ks, i) == (if s[i..RunEnd(s, i)] in ks then 1 else 0) + FindAllCount(s, ks, RunEnd(s, i))
  {
    var e := RunEnd(s, i);
    AltMatchIsWholeRun(s, ks, i);
    if s[i..e] in ks {
      assert MatchAt(s, ks, i) == Some(e - i);
    } else {
      assert MatchAt(s, ks, i) == None;
      assert FindAllCount(s, ks, i) == FindAllCount(s, ks, i + 1);
      RunEndIsWord(s, i);
      FindAllSkipsRun(s, ks, i + 1, e);
    }
  }

  /** No alternative starts at a non-word character. */
  lemma {:induction false} NoMatchAtNonWord(s: string, ks: seq<string>, i: nat)
    requires IsKeywordList(ks) && i < |s| && !IsWordChar(s[i])
    ensures AltMatch(s, ks, i) == None
    decreases |ks|
  {
    if ks != [] {
      var k := ks[0];
      assert IsWordChar(k[0]);
      assert i + |k| <= |s| ==> s[i..i + |k|][0] == s[i];
      NoMatchAtNonWord(s, ks[1..], i);
    }
  }

  /** `len(re.findall(r"\b(k1|...)\b", s))` counts the maximal word runs of s
      that equal one of the alternatives. */
  lemma {:induction false} FindAllCountsWordRuns(s: string, ks: seq<string>, i: nat)
    requires IsKeywordList(ks) && i <= |s|
    requires i == 0 || i == |s| || !IsWordChar(s[i - 1]) || !IsWordChar(s[i])
    ensures FindAllCount(s, ks, i) == CountIn(WordRuns(s, i), ks)
    decreases |s| - i
  {
    if i < |s| {
      if !IsWordChar(s[i]) {
        NoMatchAtNonWord(s, ks, i);
        FindAllCountsWordRuns(s, ks, i + 1);
      } else {
        FindAllAtRun(s, ks, i);
        FindAllCountsWordRuns(s, ks, RunEnd(s, i));
        CountInCons(s[i..RunEnd(s, i)], WordRuns(s, RunEnd(s, i)), ks);
      }
    }
  }

  /** The number of whole-word occurrences of the alternatives in s. */
  function CountWords(s: string, ks: seq<string>): (n: nat)
    requires IsKeywordList(ks)
    ensures n == CountIn(WordRuns(s, 0), ks)
  {
    FindAllCountsWordRuns(s, ks, 0);
    FindAllCount(s, ks, 0)
  }

  /** The count depends only on which words are alternatives: it adds up over
      a split of the alternatives into two disjoint groups. */
  lemma {:induction false} CountInSplit(runs: seq<string>, ks: seq<string>, a: seq<string>, b: seq<string>)
    requires forall w :: w in ks <==> w in a || w in b
    requires forall w :: w in a ==> w !in b
    ensures CountIn(runs, ks) == CountIn(runs, a) + CountIn(runs, b)
  {
    if runs != [] {
      CountInSplit(runs[1..], ks, a, b);
    }
  }

  // ---------------------------------------------------------------------------
  // Loop depth: max(len(m.group(1)) for m in re.finditer(r"(\s*)br label", s)) // 2
  // ---------------------------------------------------------------------------

  const BrLabel: string := "br label"

  /** A pattern the scan below can look for: it is not empty, it starts and
      ends with a non-space character, and no proper suffix of it is also a
      prefix of it (so two occurrences never overlap). */
  predicate Needle(pat: string)
  {
    && pat != []
    && !IsSpace(pat[0]) && !IsSpace(pat[|pat| - 1])
    && forall d :: 0 < d < |pat| ==> NoBorderAt(pat, d)
  }

  /** The suffix of the pattern from d is not also its prefix. */
  predicate NoBorderAt(pat: string, d: nat)
    requires 0 < d < |pat|
  {
    pat[d..] != pat[..|pat| - d]
  }

  lemma BrLabelIsNeedle()
    ensures Needle(BrLabel)
  {
    var pat := BrLabel;
    forall d | 0 < d < |pat|
      ensures NoBorderAt(pat, d)
    {
      if d == 5 {
        assert pat[d..][1] == 'e' != pat[..|pat| - d][1];
      } else {
        assert pat[d..][0] != 'b' == pat[..|pat| - d][0];
      }
    }
  }

  /** Where the pattern occurs in s: entry i for each position 0 to |s|. */
  function Occurrences(s: string, pat: string): (occ: seq<bool>)
    ensures |occ| == |s| + 1
  {
    seq(|s| + 1, i requires 0 <= i <= |s| => OccursAt(s, pat, i))
  }

  /** Which characters of s the class `\s` matches. */
  function SpaceMask(s: string): (ws: seq<bool>)
    ensures |ws| == |s|
  {
    seq(|s|, i requires 0 <= i < |s| => IsSpace(s[i]))
  }

  /** What the scan needs of an occurrence table of a pattern of length m in
      a text whose whitespace is marked by ws: an occurrence fits in the text,
      starts and ends with a non-space character, and overlaps no other
      occurrence. */
  predicate ScanTable(ws: seq<bool>, m: nat, occ: seq<bool>)
  {
    && m >= 1 && |occ| == |ws| + 1
    && forall i :: 0 <= i <= |ws| && occ[i] ==> Fits(ws, m, i) && Isolated(occ, m, i)
  }

  /** A pattern of length m placed at i fits in the text and starts and ends
      with a non-space character. */
  predicate Fits(ws: seq<bool>, m: nat, i: nat)
    requires m >= 1
  {
    i + m <= |ws| && !ws[i] && !ws[i + m - 1]
  }

  /** No other entry of the table is set within m positions after i. */
  predicate Isolated(occ: seq<bool>, m: nat, i: nat)
  {
    forall j :: i < j < i + m && j < |occ| ==> !occ[j]
  }

  /** An occurrence starts with the pattern's first character and ends with
      its last. */
  lemma OccurrenceEnds(s: string, pat: string, q: int)
    requires pat != []
    ensures OccursAt(s, pat, q) ==> s[q] == pat[0] && s[q + |pat| - 1] == pat[|pat| - 1]
  {
    if OccursAt(s, pat, q) {
      assert s[q..q + |pat|][0] == s[q];
      assert s[q..q + |pat|][|pat| - 1] == s[q + |pat| - 1];
    }
  }

  /** Two overlapping occurrences make a suffix of the pattern a prefix of it. */
  lemma OverlapBorder(s: string, pat: string, q: nat, j: nat)
    requires OccursAt(s, pat, q) && OccursAt(s, pat, j) && q < j < q + |pat|
    ensures !NoBorderAt(pat, j - q)
  {
    var d := j - q;
    assert pat[d..] == s[q..q + |pat|][d..] == s[j..q + |pat|];
    assert pat[..|pat| - d] == s[j..j + |pat|][..|pat| - d] == s[j..q + |pat|];
  }

  /** Occurrences of a needle cannot overlap. */
  lemma NoOverlap(s: string, pat: string, q: nat, j: nat)
    requires Needle(pat)
    requires OccursAt(s, pat, q) && q < j < q + |pat|
    ensures !OccursAt(s, pat, j)
  {
    if OccursAt(s, pat, j) {
      OverlapBorder(s, pat, q, j);
      assert false;
    }
  }

  /** The occurrences of a needle make a table the scan can use. */
  lemma NeedleScanTable(s: string, pat: string)
    requires Needle(pat)
    ensures ScanTable(SpaceMask(s), |pat|, Occurrences(s, pat))
  {
    var occ := Occurrences(s, pat);
    var ws := SpaceMask(s);
    forall i | 0 <= i <= |ws| && occ[i]
      ensures Fits(ws, |pat|, i) && Isolated(occ, |pat|, i)
    {
      OccurrenceEnds(s, pat, i);
      forall j | i < j < i + |pat| && j < |occ|
        ensures !occ[j]
      {
        NoOverlap(s, pat, i, j);
      }
    }
  }

  /** The length of the run of whitespace starting at p. */
  function WsRun(ws: seq<bool>, p: nat): (n: nat)
    requires p <= |ws|
    ensures p + n <= |ws|
    ensures p + n < |ws| ==> !ws[p + n]
    decreases |ws| - p
  {
    if p == |ws| || !ws[p] then 0 else 1 + WsRun(ws, p + 1)
  }

  /** Every position of the run from p is whitespace. */
  lemma {:induction false} WsRunIsSpace(ws: seq<bool>, p: nat)
    requires p <= |ws|
    ensures forall j :: p <= j < p + WsRun(ws, p) ==> ws[j]
    decreases |ws| - p
  {
    if p < |ws| && ws[p] {
      WsRunIsSpace(ws, p + 1);
    }
  }

  /** The `group(1)` lengths `re.finditer(r"(\s*)<pattern>", s)` yields when
      its scan stands at p, with ws marking the `\s` characters of s and occ
      telling where the pattern (of length m) occurs: the greedy `\s*` takes
      the whole whitespace run, which must be followed by the pattern; after a
      match the scan resumes at its end. */
  function FindIterIndents(ws: seq<bool>, m: nat, occ: seq<bool>, p: nat): (r: seq<nat>)
    requires m >= 1 && |occ| == |ws| + 1 && p <= |ws|
    ensures |r| <= |ws| - p
    ensures forall k :: 0 <= k < |r| ==> r[k] + m <= |ws| - p
    decreases |ws| - p
  {
    if p == |ws| then []
    else
      var n := WsRun(ws, p);
      if occ[p + n] && p + n + m <= |ws| then [n] + FindIterIndents(ws, m, occ, p + n + m)
      else FindIterIndents(ws, m, occ, p + 1)
  }

  /** The length of the maximal run of whitespace ending right before q. */
  function WsBefore(ws: seq<bool>, q: nat): (n: nat)
    requires q <= |ws|
    ensures n <= q
    ensures n < q ==> !ws[q - n - 1]
    decreases q
  {
    if q == 0 || !ws[q - 1] then 0 else 1 + WsBefore(ws, q - 1)
  }

  /** Every position of the run in front of q is whitespace. */
  lemma {:induction false} WsBeforeIsSpace(ws: seq<bool>, q: nat)
    requires q <= |ws|
    ensures forall j :: q - WsBefore(ws, q) <= j < q ==> ws[j]
    decreases q
  {
    if q > 0 && ws[q - 1] {
      WsBeforeIsSpace(ws, q - 1);
    }
  }

  /** For every occurrence at or after p, left to right, the whitespace run
      in front of it. */
  function OccurrenceIndents(ws: seq<bool>, occ: seq<bool>, p: nat): seq<nat>
    requires |occ| == |ws| + 1 && p <= |ws|
    decreases |ws| - p
  {
    if p == |ws| then []
    else if occ[p] then [WsBefore(ws, p)] + OccurrenceIndents(ws, occ, p + 1)
    else OccurrenceIndents(ws, occ, p + 1)
  }

  lemma {:induction false} OccurrenceIndentsSkip(ws: seq<bool>, occ: seq<bool>, p: nat, e: nat)
    requires |occ| == |ws| + 1 && p <= e <= |ws|
    requires forall j :: p <= j < e ==> !occ[j]
    ensures OccurrenceIndents(ws, occ, p) == OccurrenceIndents(ws, occ, e)
    decreases e - p
  {
    if p < e {
      OccurrenceIndentsSkip(ws, occ, p + 1, e);
    }
  }

  /** A run of whitespace from p up to q that is not preceded by whitespace is
      the whole run in front of q. */
  lemma {:induction false} WsBeforeExact(ws: seq<bool>, p: nat, q: nat)
    requires p <= q <= |ws|
    requires forall j :: p <= j < q ==> ws[j]
    requires p == 0 || !ws[p - 1]
    ensures WsBefore(ws, q) == q - p
    decreases q
  {
    if p < q {
      WsBeforeExact(ws, p, q - 1);
    }
  }

  /** Where the scan matches at the end of the whitespace run from p, both
      lists take that match and go on after it; the scan resumes behind a
      non-space character. */
  lemma MatchStep(ws: seq<bool>, m: nat, occ: seq<bool>, p: nat)
    requires ScanTable(ws, m, occ) && p < |ws|
    requires occ[p + WsRun(ws, p)]
    requires p == 0 || !ws[p - 1]
    ensures p + WsRun(ws, p) + m <= |ws| && !ws[p + WsRun(ws, p) + m - 1]
    ensures FindIterIndents(ws, m, occ, p) == [WsRun(ws, p)] + FindIterIndents(ws, m, occ, p + WsRun(ws, p) + m)
    ensures OccurrenceIndents(ws, occ, p) == [WsRun(ws, p)] + OccurrenceIndents(ws, occ, p + WsRun(ws, p) + m)
  {
    var n := WsRun(ws, p);
    var q := p + n;
    assert Fits(ws, m, q) && Isolated(occ, m, q);
    WsRunIsSpace(ws, p);
    OccurrenceIndentsSkip(ws, occ, p, q);
    WsBeforeExact(ws, p, q);
    OccurrenceIndentsSkip(ws, occ, q + 1, q + m);
  }

  /** Where the scan does not match at p, both lists go on from p + 1, and the
      scan may resume there. */
  lemma SkipStep(ws: seq<bool>, m: nat, occ: seq<bool>, p: nat)
    requires ScanTable(ws, m, occ) && p < |ws|
    requires !occ[p + WsRun(ws, p)]
    ensures FindIterIndents(ws, m, occ, p) == FindIterIndents(ws, m, occ, p + 1)
    ensures OccurrenceIndents(ws, occ, p) == OccurrenceIndents(ws, occ, p + 1)
    ensures !ws[p] || !occ[p + 1 + WsRun(ws, p + 1)]
  {
    assert occ[p] ==> Fits(ws, m, p);
    assert !occ[p];
  }

  /** The scan reports every occurrence, with the whole whitespace run in
      front of it, provided it does not start in the middle of a run that ends
      in front of an occurrence. */
  lemma {:induction false} FindIterMatchesOccurrences(ws: seq<bool>, m: nat, occ: seq<bool>, p: nat)
    requires ScanTable(ws, m, occ) && p <= |ws|
    requires p == 0 || !ws[p - 1] || !occ[p + WsRun(ws, p)]
    ensures FindIterIndents(ws, m, occ, p) == OccurrenceIndents(ws, occ, p)
    decreases |ws| - p
  {
    if p < |ws| {
      if occ[p + WsRun(ws, p)] {
        MatchStep(ws, m, occ, p);
        FindIterMatchesOccurrences(ws, m, occ, p + WsRun(ws, p) + m);
      } else {
        SkipStep(ws, m, occ, p);
        FindIterMatchesOccurrences(ws, m, occ, p + 1);
      }
    }
  }

  /** An occurrence at or after p contributes its indentation to the list. */
  lemma {:induction false} OccurrenceIndentsHas(ws: seq<bool>, occ: seq<bool>, p: nat, q: nat)
    requires |occ| == |ws| + 1 && p <= q < |ws| && occ[q]
    ensures WsBefore(ws, q) in OccurrenceIndents(ws, occ, p)
    decreases q - p
  {
    if p < q {
      OccurrenceIndentsHas(ws, occ, p + 1, q);
    }
  }

  /** Every entry of the list is the indentation of an occurrence at or
      after p. */
  lemma {:induction false} OccurrenceIndentsFrom(ws: seq<bool>, occ: seq<bool>, p: nat, x: nat)
    requires |occ| == |ws| + 1 && p <= |ws|
    requires x in OccurrenceIndents(ws, occ, p)
    ensures exists q :: p <= q < |ws| && occ[q] && WsBefore(ws, q) == x
    decreases |ws| - p
  {
    if !(occ[p] && WsBefore(ws, p) == x) {
      OccurrenceIndentsFrom(ws, occ, p + 1, x);
    }
  }

  /** `max(xs)` of a non-empty list. */
  function SeqMax(xs: seq<nat>): (m: nat)
    requires xs != []
    ensures m in xs && forall j :: 0 <= j < |xs| ==> xs[j] <= m
  {
    if |xs| == 1 then xs[0]
    else var m := SeqMax(xs[1..]); if xs[0] >= m then xs[0] else m
  }

  /** `max(indent) // 2 if indent else 0` over the `(\s*)br label` matches:
      half the longest whitespace run in front of a `br label`, or 0 when the
      text has none. */
  function LoopDepth(s: string): (d: nat)
    ensures (forall q :: 0 <= q <= |s| ==> !OccursAt(s, BrLabel, q)) ==> d == 0
    ensures forall q :: 0 <= q <= |s| && OccursAt(s, BrLabel, q) ==> WsBefore(SpaceMask(s), q) / 2 <= d
    ensures (exists q :: 0 <= q <= |s| && OccursAt(s, BrLabel, q)) ==>
      exists q :: 0 <= q <= |s| && OccursAt(s, BrLabel, q) && WsBefore(SpaceMask(s), q) / 2 == d
  {
    var ws := SpaceMask(s);
    var occ := Occurrences(s, BrLabel);
    var indents := FindIterIndents(ws, |BrLabel|, occ, 0);
    BrLabelIsNeedle();
    NeedleScanTable(s, BrLabel);
    FindIterMatchesOccurrences(ws, |BrLabel|, occ, 0);
    forall q | 0 <= q <= |s| && OccursAt(s, BrLabel, q)
      ensures WsBefore(ws, q) in indents
    {
      assert occ[q] && Fits(ws, |BrLabel|, q);
      OccurrenceIndentsHas(ws, occ, 0, q);
    }
    if indents == [] then 0
    else
      var m := SeqMax(indents);
      OccurrenceIndentsFrom(ws, occ, 0, m);
      m / 2
  }

  // ---------------------------------------------------------------------------
  // Boundedness
  // ---------------------------------------------------------------------------

  datatype Bound = Memory | Compute | Mixed

  function Max1(n: nat): (m: nat)
    ensures m >= 1 && m >= n
  {
    if n >= 1 then n else 1
  }

  /** `mem / max(1, arith)`, taken exactly (without floating-point
      rounding). */
  function Ratio(mem: nat, arith: nat): (r: real)
    ensures r * Max1(arith) as real == mem as real
    ensures r >= 0.0
  {
    var d := Max1(arith) as real;
    var r := mem as real / d;
    assert r * d == mem as real;
    r
  }

  /** The ratio classified against 2 and 0.5. */
  function RatioBound(mem: nat, arith: nat): (b: Bound)
    ensures b == Memory <==> mem > 2 * Max1(arith)
    ensures b == Compute <==> 2 * mem < Max1(arith)
  {
    var d := Max1(arith) as real;
    var ratio := mem as real / d;
    RatioCompare(mem as real, d, 2.0);
    RatioCompare(mem as real, d, 0.5);
    if ratio > 2.0 then Memory else if ratio < 0.5 then Compute else Mixed
  }

  /** Comparing a quotient by a positive divisor with c is comparing the
      dividend with c times the divisor. */
  lemma RatioCompare(x: real, d: real, c: real)
    requires d > 0.0
    ensures x / d > c <==> x > c * d
    ensures x / d < c <==> x < c * d
  {
    var r := x / d;
    assert x == r * d;
    assert (r - c) * d == x - c * d;
    if r > c { MulPositive(r - c, d); }
    if r < c { MulPositive(c - r, d); }
    if x > c * d { assert (r - c) * d > 0.0; }
    if x < c * d { assert (c - r) * d > 0.0; }
  }

  lemma MulPositive(a: real, b: real)
    requires a > 0.0 && b > 0.0
    ensures a * b > 0.0
  {
  }

  /** The integer comparison `n_mem > 2 * n_arith` / `n_arith > 2 * n_mem`. */
  function CountBound(nMem: nat, nArith: nat): (b: Bound)
    ensures b == Memory <==> nMem > 2 * nArith
    ensures b == Compute <==> nArith > 2 * nMem
    ensures nArith >= 1 ==> b == RatioBound(nMem, nArith)
    ensures nMem == 0 && nArith == 0 ==> b == Mixed
  {
    if nMem > 2 * nArith then Memory else if nArith > 2 * nMem then Compute else Mixed
  }

  /** The two classifiers disagree exactly when there is no arithmetic and at
      most two memory operations. */
  lemma BoundsAgree(nMem: nat, nArith: nat)
    ensures RatioBound(nMem, nArith) == CountBound(nMem, nArith) <==> nArith >= 1 || nMem > 2
  {
  }
}
