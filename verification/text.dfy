/** The two string operations the routing code relies on: lower-casing and
    stripping leading characters. */
module Text {

  predicate IsUpper(c: char) {
    'A' <= c <= 'Z'
  }

  /** Lower-cases one ASCII letter and leaves every other character alone. */
  function LowerChar(c: char): (r: char)
    ensures !IsUpper(r)
    ensures IsUpper(c) ==> r as int == c as int + 32
    ensures !IsUpper(c) ==> r == c
  {
    if IsUpper(c) then (c as int + 32) as char else c
  }

  /** `s.lower()` restricted to ASCII: same length, no upper-case letter left,
      every character lowered in place. */
  function Lower(s: string): (r: string)
    ensures |r| == |s|
    ensures forall i | 0 <= i < |r| :: !IsUpper(r[i])
    ensures forall i | 0 <= i < |s| :: r[i] == LowerChar(s[i])
  {
    seq(|s|, i requires 0 <= i < |s| => LowerChar(s[i]))
  }

  /** Lower-casing twice is lower-casing once. */
  lemma LowerIdempotent(s: string)
    ensures Lower(Lower(s)) == Lower(s)
  {
    var once := Lower(s);
    assert forall i | 0 <= i < |once| :: LowerChar(once[i]) == once[i];
  }

  /** `s.lstrip(c)` for a single character `c`: the result is the suffix of `s`
      left after removing every leading `c`, so it does not itself start with `c`. */
  function LStrip(s: string, c: char): (r: string)
    ensures |r| <= |s| && r == s[|s| - |r|..]
    ensures r == [] || r[0] != c
    ensures forall i | 0 <= i < |s| - |r| :: s[i] == c
    decreases |s|
  {
    if s != [] && s[0] == c then LStrip(s[1..], c) else s
  }

  /** Stripping is idempotent, and one more leading `c` makes no difference. */
  lemma {:induction false} LStripAbsorbs(s: string, c: char)
    ensures LStrip(LStrip(s, c), c) == LStrip(s, c)
    ensures LStrip([c] + s, c) == LStrip(s, c)
  {
    var r := LStrip(s, c);
    assert r == [] || r[0] != c;
    var t := [c] + s;
    assert t != [] && t[0] == c && t[1..] == s;
  }
}
