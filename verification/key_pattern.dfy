/**
 * The key pattern of src/index.ts:36,
 *
 *     (?:FIRMWARE_API_KEY[_\d]*=['"]?)([^'"\s\n]+)
 *
 * applied with a non-global `String.prototype.match`: the result is the
 * first capture group of the leftmost match, or nothing.
 *
 * The pattern is given two readings. `MatchesAt` is declarative: it says
 * which positions (p, j, q, e) the pattern can match with, in any
 * backtracking order. `Extract` computes the engine's answer: scan start
 * positions from the left, and at each one follow the greedy quantifiers.
 * The lemmas show that the two agree and that the answer is unique.
 */
module KeyPattern {
  import opened Wrappers

  /** The literal that opens an assignment. */
  const KeyName: string := "FIRMWARE_API_KEY"

  /** `[_\d]`: what may stand between the name and `=`. */
  predicate IsSuffixChar(c: char) {
    c == '_' || '0' <= c <= '9'
  }

  predicate IsQuote(c: char) {
    c == '\'' || c == '"'
  }

  /** `\s` of an ECMAScript regular expression: white space and line terminators. */
  predicate IsSpace(c: char) {
    || c == '\t' || c == '\n' || c == '\U{000B}' || c == '\U{000C}' || c == '\r'
    || c == ' ' || c == '\U{00A0}' || c == '\U{1680}'
    || ('\U{2000}' <= c <= '\U{200A}')
    || c == '\U{2028}' || c == '\U{2029}' || c == '\U{202F}' || c == '\U{205F}'
    || c == '\U{3000}' || c == '\U{FEFF}'
  }

  /** `[^'"\s\n]`: what a captured key may contain. */
  predicate IsKeyChar(c: char) {
    !IsQuote(c) && !IsSpace(c)
  }

  /** A well-formed key: non-empty, no quote, no white space. */
  predicate IsKey(v: string) {
    v != [] && forall i | 0 <= i < |v| :: IsKeyChar(v[i])
  }

  /**
   * The pattern matches starting at p, with the name in s[p..p+16], the
   * run `[_\d]*` up to j, `=` at j, the optional quote ending at q, and the
   * capture s[q..e].
   */
  ghost predicate MatchesAt(s: string, p: int, j: int, q: int, e: int) {
    && 0 <= p && p + |KeyName| <= j < |s|
    && s[p..p + |KeyName|] == KeyName
    && (forall k | p + |KeyName| <= k < j :: IsSuffixChar(s[k]))
    && s[j] == '='
    && q < e <= |s|
    && (q == j + 1 || (q == j + 2 && IsQuote(s[j + 1])))
    && (forall k | q <= k < e :: IsKeyChar(s[k]))
  }

  /** The capture cannot be extended: it ends the text or meets a quote or white space. */
  predicate Maximal(s: string, e: nat) {
    e == |s| || (e < |s| && !IsKeyChar(s[e]))
  }

  /** Where a match starts, where its `=` is, and where its capture lies. */
  datatype Match = Match(start: nat, equals: nat, valueStart: nat, valueEnd: nat)

  ghost predicate IsMatch(s: string, m: Match) {
    MatchesAt(s, m.start, m.equals, m.valueStart, m.valueEnd)
  }

  /** End of the greedy run `[_\d]*` that starts at i. */
  function SuffixEnd(s: string, i: nat): (j: nat)
    requires i <= |s|
    ensures i <= j <= |s|
    ensures forall k | i <= k < j :: IsSuffixChar(s[k])
    ensures j == |s| || !IsSuffixChar(s[j])
    decreases |s| - i
  {
    if i < |s| && IsSuffixChar(s[i]) then SuffixEnd(s, i + 1) else i
  }

  /** End of the greedy run `[^'"\s\n]+` that starts at i (equal to i when the run is empty). */
  function KeyRunEnd(s: string, i: nat): (e: nat)
    requires i <= |s|
    ensures i <= e <= |s|
    ensures forall k | i <= k < e :: IsKeyChar(s[k])
    ensures Maximal(s, e)
    decreases |s| - i
  {
    if i < |s| && IsKeyChar(s[i]) then KeyRunEnd(s, i + 1) else i
  }

  /**
   * Any match at p has its `=` at the end of the `[_\d]` run after the
   * name, and its capture starts with a key character.
   */
  lemma MatchShape(s: string, p: int, j: int, q: int, e: int)
    ensures MatchesAt(s, p, j, q, e) ==> j == SuffixEnd(s, p + |KeyName|) && IsKeyChar(s[q])
  {
  }

  /** The engine's attempt at position p: the greedy choices, and failure when the capture is empty. */
  function MatchAt(s: string, p: nat): (r: Option<Match>)
    requires p <= |s|
    ensures r.Some? ==> r.value.start == p && IsMatch(s, r.value) && Maximal(s, r.value.valueEnd)
    ensures r.None? ==> forall j, q, e :: !MatchesAt(s, p, j, q, e)
  {
    if p + |KeyName| <= |s| && s[p..p + |KeyName|] == KeyName then
      var j := SuffixEnd(s, p + |KeyName|);
      if j < |s| && s[j] == '=' then
        var q := if j + 1 < |s| && IsQuote(s[j + 1]) then j + 2 else j + 1;
        var e := KeyRunEnd(s, q);
        if q < e then
          Some(Match(p, j, q, e))
        else
          None
      else
        None
    else
      None
  }

  /** Scan start positions from i onwards; the first attempt that succeeds is the match. */
  function FindFrom(s: string, i: nat): (r: Option<Match>)
    requires i <= |s|
    ensures r.Some? ==> i <= r.value.start && IsMatch(s, r.value) && Maximal(s, r.value.valueEnd)
    ensures r.Some? ==> forall p, j, q, e | i <= p < r.value.start :: !MatchesAt(s, p, j, q, e)
    ensures r.None? ==> forall p, j, q, e | i <= p :: !MatchesAt(s, p, j, q, e)
    decreases |s| - i
  {
    if i == |s| then
      None
    else
      match MatchAt(s, i)
      case Some(m) => Some(m)
      case None => FindFrom(s, i + 1)
  }

  /** The key that `content.match(...)` yields as its first group, if the text has a match. */
  function Extract(s: string): (r: Option<string>)
    ensures r.Some? ==> IsKey(r.value)
    ensures r.None? <==> forall p, j, q, e :: !MatchesAt(s, p, j, q, e)
  {
    match FindFrom(s, 0)
    case None => None
    case Some(m) => Some(s[m.valueStart..m.valueEnd])
  }

  /** Two matches at the same start, each with a maximal capture, are the same match. */
  lemma MatchUnique(s: string, p: int, j: int, q: int, e: int, j': int, q': int, e': int)
    requires MatchesAt(s, p, j, q, e) && Maximal(s, e)
    requires MatchesAt(s, p, j', q', e') && Maximal(s, e')
    ensures j == j' && q == q' && e == e'
  {
  }

  /**
   * The regex's answer, characterised without the scan: if (p, j, q, e) is a
   * match with a maximal capture and no match starts before p, then the
   * extracted key is exactly s[q..e].
   */
  lemma ExtractIsLeftmostLongest(s: string, p: int, j: int, q: int, e: int)
    requires MatchesAt(s, p, j, q, e) && Maximal(s, e)
    requires forall p', j', q', e' | p' < p :: !MatchesAt(s, p', j', q', e')
    ensures Extract(s) == Some(s[q..e])
  {
    var m := FindFrom(s, 0).value;
    assert m.start == p by {
      assert IsMatch(s, m);
    }
    MatchUnique(s, p, j, q, e, m.equals, m.valueStart, m.valueEnd);
  }

  /**
   * Conversely, an extracted key comes from a match with a maximal capture
   * that no earlier match precedes.
   */
  lemma ExtractWitness(s: string) returns (m: Match)
    requires Extract(s).Some?
    ensures IsMatch(s, m) && Maximal(s, m.valueEnd)
    ensures Extract(s).value == s[m.valueStart..m.valueEnd]
    ensures forall p, j, q, e | p < m.start :: !MatchesAt(s, p, j, q, e)
  {
    m := FindFrom(s, 0).value;
  }

  /** An assignment whose value is an empty quoted text: `FIRMWARE_API_KEY=""` and a line break. */
  const EmptyAssignment: string := KeyName + "=\"\"\n"

  /** A text whose first assignment has an empty quoted value and whose second has the key `abc`. */
  const EmptyThenKey: string := EmptyAssignment + (KeyName + "=abc")

  lemma EmptyThenKeySecondMatches()
    ensures MatchesAt(EmptyThenKey, 20, 36, 37, 40) && Maximal(EmptyThenKey, 40)
  {
  }

  lemma KeyNameNoF(k: int)
    requires 0 < k < |KeyName|
    ensures KeyName[k] != 'F'
  {
  }

  /** The name occurs in the text only at positions 0 and 20. */
  lemma EmptyThenKeyNoNameBefore(p: int, j: int, q: int, e: int)
    requires 0 < p < 20
    ensures !MatchesAt(EmptyThenKey, p, j, q, e)
  {
    assert EmptyThenKey[p] == EmptyAssignment[p];
    if p < 16 {
      assert EmptyAssignment[p] == KeyName[p];
      KeyNameNoF(p);
    } else {
      assert EmptyAssignment[p] == EmptyAssignment[16..][p - 16];
    }
    assert EmptyThenKey[p..p + |KeyName|][0] == EmptyThenKey[p] != KeyName[0];
  }

  /** The assignment at position 0 has only a quoted empty value. */
  lemma EmptyThenKeyFirstEmpty(j: int, q: int, e: int)
    ensures !MatchesAt(EmptyThenKey, 0, j, q, e)
  {
    MatchShape(EmptyThenKey, 0, j, q, e);
    assert EmptyThenKey[16] == '=' && EmptyThenKey[17] == '"' && EmptyThenKey[18] == '"';
    assert SuffixEnd(EmptyThenKey, 16) == 16;
  }

  /**
   * An assignment with an empty quoted value is passed over in favour of a
   * later one.
   */
  lemma SkipsEmptyQuotedValue()
    ensures Extract(EmptyThenKey) == Some("abc")
  {
    EmptyThenKeySecondMatches();
    forall p, j, q, e | p < 20 ensures !MatchesAt(EmptyThenKey, p, j, q, e) {
      if p == 0 {
        EmptyThenKeyFirstEmpty(j, q, e);
      } else if 0 < p {
        EmptyThenKeyNoNameBefore(p, j, q, e);
      }
    }
    ExtractIsLeftmostLongest(EmptyThenKey, 20, 36, 37, 40);
    assert EmptyThenKey[37..40] == "abc";
  }
}
