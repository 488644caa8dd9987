/**
 * The few pieces of Python's string behaviour the modelled code relies on:
 * anchored matching of a dot pattern (`re.match` with a leading `.*`),
 * `str.rfind` with an end bound, and `str.strip` with a set of characters.
 */
module Text {

  /** `pat` matches `s` at index `i`, a '.' in `pat` standing for any one character. */
  predicate MatchesAt(s: string, pat: string, i: nat)
  {
    i + |pat| <= |s| && forall k :: 0 <= k < |pat| ==> pat[k] == '.' || s[i + k] == pat[k]
  }

  /** `re.match(".*" + pat, s)` for a pattern whose only metacharacter is '.'. */
  predicate Occurs(s: string, pat: string)
  {
    exists i: nat :: i <= |s| && MatchesAt(s, pat, i)
  }

  /** `sub` occurs literally in `s` starting at index `i`. */
  predicate OccursAt(s: string, sub: string, i: nat)
  {
    i + |sub| <= |s| && s[i..i + |sub|] == sub
  }

  /**
   * `s.rfind(sub, 0, end)` for `0 <= end <= len(s)`: the start of the last
   * occurrence of `sub` lying wholly inside `s[..end]`, or -1 when there is none.
   */
  function RFind(s: string, sub: string, end: nat): (r: int)
    requires end <= |s|
    ensures -1 <= r
    ensures r >= 0 ==> r + |sub| <= end && OccursAt(s, sub, r)
    ensures forall i: nat :: r < i && i + |sub| <= end ==> !OccursAt(s, sub, i)
    decreases end
  {
    if end < |sub| then -1
    else if OccursAt(s, sub, end - |sub|) then end - |sub|
    else RFind(s, sub, end - 1)
  }

  /** `s.lstrip(chars)`: the suffix left after dropping leading characters of `chars`. */
  function StripLeading(s: string, chars: set<char>): (r: string)
    ensures |r| <= |s| && r == s[|s| - |r|..]
    ensures forall k :: 0 <= k < |s| - |r| ==> s[k] in chars
    ensures r == [] || r[0] !in chars
  {
    if s != [] && s[0] in chars then StripLeading(s[1..], chars) else s
  }

  /** `s.rstrip(chars)`: the prefix left after dropping trailing characters of `chars`. */
  function StripTrailing(s: string, chars: set<char>): (r: string)
    ensures |r| <= |s| && r == s[..|r|]
    ensures forall k :: |r| <= k < |s| ==> s[k] in chars
    ensures r == [] || r[|r| - 1] !in chars
  {
    if s != [] && s[|s| - 1] in chars then StripTrailing(s[..|s| - 1], chars) else s
  }

  /** `s.strip(chars)`: the result neither begins nor ends with a character of `chars`. */
  function Strip(s: string, chars: set<char>): (r: string)
    ensures |r| <= |s|
    ensures r == [] || (r[0] !in chars && r[|r| - 1] !in chars)
  {
    StripTrailing(StripLeading(s, chars), chars)
  }

  /** `r` is the slice of `s` at `i`, and everything of `s` around it is in `chars`. */
  predicate TrimmedSliceAt(s: string, r: string, i: nat, chars: set<char>)
  {
    && i + |r| <= |s|
    && r == s[i..i + |r|]
    && (forall k :: 0 <= k < i ==> s[k] in chars)
    && (forall k :: i + |r| <= k < |s| ==> s[k] in chars)
  }

  /**
   * The result of `Strip` is the slice of `s` at `i`, and everything cut off
   * on either side is in `chars`.
   */
  lemma StripIsSlice(s: string, chars: set<char>) returns (i: nat)
    ensures TrimmedSliceAt(s, Strip(s, chars), i, chars)
  {
    var l := StripLeading(s, chars);
    var r := StripTrailing(l, chars);
    i := |s| - |l|;
    assert s[i..][..|r|] == s[i..i + |r|];
    forall k | i + |r| <= k < |s|
      ensures s[k] in chars
    {
      assert s[k] == l[k - i];
    }
  }
}
