/** The three ways the seed pickers cut a JSON block out of a model's reply.
    None of them balances braces or checks a schema: each is a plain string
    rule, characterised here by the positions of `{` and `}` in the reply. */
module JsonBlocks {
  import opened Wrappers
  import opened Text
  import opened Exceptions
  import opened Json

  // ---------------------------------------------------------------------------
  // Stop-brace rule: `text if text.endswith("}") else text.split("}")[0] + "}"`
  // ---------------------------------------------------------------------------

  /** `s.split(c)[0]`: the longest prefix of s without c. */
  function SplitHead(s: string, c: char): (h: string)
    ensures h <= s && c !in h
    ensures |h| < |s| ==> s[|h|] == c
  {
    if s == [] || s[0] == c then [] else [s[0]] + SplitHead(s[1..], c)
  }

  /** The block handed to `json.loads` by the stop-sequence callers. */
  function StopBraceBlock(text: string): (b: string)
    ensures |b| >= 1 && b[|b| - 1] == '}'
    ensures EndsWith(text, "}") ==> b == text
    ensures !EndsWith(text, "}") ==>
      b[..|b| - 1] <= text && '}' !in b[..|b| - 1] &&
      (|b| - 1 < |text| ==> text[|b| - 1] == '}')
  {
    if EndsWith(text, "}") then text
    else
      var h := SplitHead(text, '}');
      assert (h + "}")[..|h|] == h;
      h + "}"
  }

  /** Applying the rule to its own output changes nothing. */
  lemma StopBraceIdempotent(text: string)
    ensures StopBraceBlock(StopBraceBlock(text)) == StopBraceBlock(text)
  {
    var b := StopBraceBlock(text);
    assert b[|b| - 1..] == "}";
  }

  /** When the text does not end in `}`, the block holds exactly one `}`, its
      last character. */
  lemma StopBraceSingleBrace(text: string)
    requires !EndsWith(text, "}")
    ensures var b := StopBraceBlock(text);
      forall i :: 0 <= i < |b| ==> (b[i] == '}' <==> i == |b| - 1)
  {
    var b := StopBraceBlock(text);
    forall i | 0 <= i < |b| - 1 ensures b[i] != '}' {
      assert b[i] == b[..|b| - 1][i];
    }
  }

  /** `try: return json.loads(block) except JSONDecodeError: raise
      RuntimeError(prefix + text)`: the error carries the whole reply. */
  function ParseStopBrace(text: string, loads: string -> Option<Json>, prefix: string): (r: Result<Json, PyError>)
    ensures r.Ok? <==> loads(StopBraceBlock(text)).Some?
    ensures r.Ok? ==> r.value == loads(StopBraceBlock(text)).value
    ensures r.Err? ==> r.error.RuntimeError? && EndsWith(r.error.message, text)
  {
    match loads(StopBraceBlock(text))
    case Some(j) => Ok(j)
    case None =>
      var m := prefix + text;
      assert m[|m| - |text|..] == text;
      Err(RuntimeError(m))
  }

  // ---------------------------------------------------------------------------
  // The first `{` up to the last `}`
  // ---------------------------------------------------------------------------

  /** Some `{` comes before some `}`. */
  predicate HasBracePair(s: string)
  {
    exists i, j :: 0 <= i < j < |s| && s[i] == '{' && s[j] == '}'
  }

  /** s[a..e] runs from the first `{` of s to its last `}`. */
  predicate FirstToLast(s: string, a: nat, e: nat)
  {
    a < e <= |s| && s[a] == '{' && s[e - 1] == '}' &&
    (forall k :: 0 <= k < a ==> s[k] != '{') &&
    (forall k :: e <= k < |s| ==> s[k] != '}')
  }

  /** v sits at index a of s and runs from its first `{` to its last `}`. */
  predicate BlockAt(s: string, v: string, a: int)
  {
    0 <= a && a + |v| <= |s| && FirstToLast(s, a, a + |v|) && v == s[a..a + |v|]
  }

  lemma FirstToLastUnique(s: string, a: nat, e: nat, a': nat, e': nat)
    requires FirstToLast(s, a, e) && FirstToLast(s, a', e')
    ensures a == a' && e == e'
  {
  }

  /** Python's `s[a:b]` for indices within the string: empty when b <= a. */
  function Slice(s: string, a: nat, b: nat): (r: string)
    requires a <= |s| && b <= |s|
    ensures b <= a ==> r == []
    ensures a < b ==> r == s[a..b]
  {
    if b <= a then [] else s[a..b]
  }

  /** `raw[raw.index("{") : raw.rindex("}") + 1]`, or None where `index` or
      `rindex` raises ValueError. */
  function FirstLastSlice(raw: string): (r: Option<string>)
    ensures r.None? <==> '{' !in raw || '}' !in raw
    ensures r.Some? ==> (r.value != [] <==> HasBracePair(raw))
    ensures r.Some? && r.value != [] ==>
      exists a :: BlockAt(raw, r.value, a)
  {
    match (IndexOf(raw, '{'), LastIndexOf(raw, '}'))
    case (Some(f), Some(l)) =>
      var v := Slice(raw, f, l + 1);
      assert f < l + 1 ==> FirstToLast(raw, f, l + 1) by {
        if f < l + 1 {
          forall k | 0 <= k < f ensures raw[k] != '{' { assert raw[k] == raw[..f][k]; }
          forall k | l + 1 <= k < |raw| ensures raw[k] != '}' { assert raw[k] == raw[l + 1..][k - l - 1]; }
        }
      }
      PairWithin(raw, f, l);
      assert f < l + 1 ==> BlockAt(raw, v, f);
      Some(v)
    case _ => None
  }

  /** A `{`/`}` pair exists exactly when the first `{` precedes the last `}`. */
  lemma PairWithin(s: string, f: nat, l: nat)
    requires f < |s| && s[f] == '{' && '{' !in s[..f]
    requires l < |s| && s[l] == '}' && '}' !in s[l + 1..]
    ensures HasBracePair(s) <==> f < l
  {
    if HasBracePair(s) {
      var i, j :| 0 <= i < j < |s| && s[i] == '{' && s[j] == '}';
      assert f <= i && j <= l;
    }
  }

  // ---------------------------------------------------------------------------
  // re.search(r"\{.*\}", s, re.S)
  // ---------------------------------------------------------------------------

  /** The greedy `.*` after the `{` at `start` first takes s[start+1..j] and
      then gives characters back one at a time until a `}` follows; the result
      is the end of the match. */
  function Backtrack(s: string, start: nat, j: nat): (e: Option<nat>)
    requires start < j <= |s|
    ensures e.Some? ==> start + 1 < e.value <= |s| && e.value <= j + 1 && s[e.value - 1] == '}'
    ensures e.Some? ==> forall k :: e.value <= k <= j && k < |s| ==> s[k] != '}'
    ensures e.None? ==> forall k :: start < k <= j && k < |s| ==> s[k] != '}'
    decreases j
  {
    if j < |s| && s[j] == '}' then Some(j + 1)
    else if j == start + 1 then None
    else Backtrack(s, start, j - 1)
  }

  /** The leftmost start at which the pattern matches, with the match's end. */
  function Search(s: string, i: nat): (m: Option<(nat, nat)>)
    requires i <= |s|
    ensures m.Some? ==> i <= m.value.0 && FirstFromHere(s, i, m.value.0, m.value.1)
    ensures m.None? ==> forall a, b :: i <= a < b < |s| ==> !(s[a] == '{' && s[b] == '}')
    decreases |s| - i
  {
    if i == |s| then None
    else if s[i] == '{' && i + 1 < |s| then
      match Backtrack(s, i, |s|)
      case Some(e) => Some((i, e))
      case None => Search(s, i + 1)
    else Search(s, i + 1)
  }

  /** s[a..e] runs from the first `{` at or after i to the last `}` of s. */
  predicate FirstFromHere(s: string, i: nat, a: nat, e: nat)
  {
    a < e <= |s| && s[a] == '{' && s[e - 1] == '}' &&
    (forall k :: i <= k < a ==> s[k] != '{') &&
    (forall k :: e <= k < |s| ==> s[k] != '}')
  }

  /** `match.group(0)` of the DOTALL search, or None where there is no match. */
  function RegexBlock(s: string): (r: Option<string>)
    ensures r.Some? <==> HasBracePair(s)
    ensures r.Some? ==>
      exists a :: BlockAt(s, r.value, a)
  {
    match Search(s, 0)
    case Some((a, e)) =>
      assert FirstToLast(s, a, e);
      assert BlockAt(s, s[a..e], a);
      assert HasBracePair(s) by { assert s[a] == '{' && s[e - 1] == '}' && a < e - 1; }
      Some(s[a..e])
    case None => None
  }

  /** The regex search and the index/rindex slice pick out the same text
      whenever a `{` precedes a `}`; otherwise the search fails and the slice
      is missing or empty. */
  lemma RegexAgreesWithSlice(s: string)
    ensures RegexBlock(s).Some? ==> FirstLastSlice(s) == RegexBlock(s)
    ensures RegexBlock(s).None? ==> FirstLastSlice(s) == None || FirstLastSlice(s) == Some([])
  {
    var r := RegexBlock(s);
    if r.Some? {
      var v := r.value;
      var a :| BlockAt(s, v, a);
      assert s[a] == '{' && s[a + |v| - 1] == '}';
      var w := FirstLastSlice(s).value;
      var a' :| BlockAt(s, w, a');
      FirstToLastUnique(s, a, a + |v|, a', a' + |w|);
    }
  }
}
