/** String helpers shared by the key latches, the device probe and the
    metadata builder: ASCII lower-casing (`String.prototype.toLowerCase`
    restricted to A-Z), substring search and `Array.prototype.join`. */
module Text {

  /** Lower-cases one ASCII letter; every other character is kept. */
  function LowerChar(c: char): (r: char)
    ensures 'A' <= c <= 'Z' ==> r as int == c as int + 32
    ensures !('A' <= c <= 'Z') ==> r == c
    ensures !('A' <= r <= 'Z')
  {
    if 'A' <= c <= 'Z' then (c as int + 32) as char else c
  }

  /** Lower-cases a whole string, character by character. */
  function ToLower(s: string): (r: string)
    ensures |r| == |s|
    ensures forall i :: 0 <= i < |s| ==> r[i] == LowerChar(s[i])
  {
    if |s| == 0 then "" else [LowerChar(s[0])] + ToLower(s[1..])
  }

  /** True when `s` contains no upper-case ASCII letter. */
  predicate IsLower(s: string) {
    forall i :: 0 <= i < |s| ==> !('A' <= s[i] <= 'Z')
  }

  /** Lower-casing yields a lower-case string and leaves one unchanged, so
      it is idempotent. */
  lemma ToLowerIsLowerAndFixesLower(s: string)
    ensures IsLower(ToLower(s))
    ensures IsLower(s) ==> ToLower(s) == s
    ensures ToLower(ToLower(s)) == ToLower(s)
  {
    var r := ToLower(s);
    assert forall i :: 0 <= i < |r| ==> ToLower(r)[i] == r[i];
  }

  /** `t` occurs in `s` starting at index `i`. */
  predicate MatchesAt(s: string, t: string, i: int) {
    0 <= i && i + |t| <= |s| && s[i..i + |t|] == t
  }

  /** Substring search: the model of a regular expression that is a
      plain alternation-free literal. */
  function Contains(s: string, t: string): (r: bool)
    ensures r <==> exists i :: MatchesAt(s, t, i)
    decreases |s|
  {
    if |s| < |t| then
      assert forall i :: !MatchesAt(s, t, i);
      false
    else if s[..|t|] == t then
      assert MatchesAt(s, t, 0);
      true
    else
      ContainsShift(s, t);
      Contains(s[1..], t)
  }

  /** A match in `s` that is not at index 0 is a match in `s[1..]`, one
      position earlier, and conversely. */
  lemma ContainsShift(s: string, t: string)
    requires |s| >= |t| && s[..|t|] != t
    ensures (exists i :: MatchesAt(s, t, i)) <==> (exists i :: MatchesAt(s[1..], t, i))
  {
    if i :| MatchesAt(s, t, i) {
      assert i != 0;
      assert s[1..][i - 1..i - 1 + |t|] == s[i..i + |t|];
      assert MatchesAt(s[1..], t, i - 1);
    }
    if i :| MatchesAt(s[1..], t, i) {
      assert s[1..][i..i + |t|] == s[i + 1..i + 1 + |t|];
      assert MatchesAt(s, t, i + 1);
    }
  }

  /** `xs.join(sep)`: the elements with `sep` between neighbours. */
  function Join(xs: seq<string>, sep: string): (r: string)
    decreases |xs|
  {
    if |xs| == 0 then ""
    else if |xs| == 1 then xs[0]
    else xs[0] + sep + Join(xs[1..], sep)
  }

  /** Appending an element to a non-empty list appends the separator and
      the element to the joined string; the empty list joins to "" and a
      one-element list to its element. */
  lemma {:induction false} JoinAppend(xs: seq<string>, x: string, sep: string)
    ensures Join([], sep) == ""
    ensures Join([x], sep) == x
    ensures |xs| > 0 ==> Join(xs + [x], sep) == Join(xs, sep) + sep + x
    decreases |xs|
  {
    if |xs| > 1 {
      assert (xs + [x])[1..] == xs[1..] + [x];
      JoinAppend(xs[1..], x, sep);
    } else if |xs| == 1 {
      assert (xs + [x])[1..] == [x];
    }
  }
}
