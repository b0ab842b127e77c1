/**
 * The two PHP string built-ins the pipeline relies on: `trim` with its default
 * character set and `mb_strtolower`, the case fold used for city names and
 * cache keys.
 */
module Text {

  /** The characters `trim` strips by default: space, tab, LF, CR, NUL and vertical tab. */
  predicate IsTrimmable(c: char)
  {
    c == ' ' || c == '\t' || c == '\n' || c == '\r' || c == '\0' || c == '\U{000B}'
  }

  predicate AllTrimmable(s: string)
  {
    forall i :: 0 <= i < |s| ==> IsTrimmable(s[i])
  }

  /** Neither the first nor the last character of `s` is trimmable. */
  predicate HasTrimmedEdges(s: string)
  {
    s == [] || (!IsTrimmable(s[0]) && !IsTrimmable(s[|s| - 1]))
  }

  function TrimLeft(s: string): string
  {
    if s != [] && IsTrimmable(s[0]) then TrimLeft(s[1..]) else s
  }

  function TrimRight(s: string): string
  {
    if s != [] && IsTrimmable(s[|s| - 1]) then TrimRight(s[..|s| - 1]) else s
  }

  /** PHP `trim($s)`. */
  function Trim(s: string): string
  {
    TrimRight(TrimLeft(s))
  }

  /** `TrimLeft` removes a run of trimmable characters from the front and stops at the first other one. */
  lemma {:induction false} TrimLeftShape(s: string)
    ensures |TrimLeft(s)| <= |s|
    ensures TrimLeft(s) == s[|s| - |TrimLeft(s)|..]
    ensures AllTrimmable(s[..|s| - |TrimLeft(s)|])
    ensures TrimLeft(s) == [] || !IsTrimmable(TrimLeft(s)[0])
  {
    if s != [] && IsTrimmable(s[0]) {
      TrimLeftShape(s[1..]);
      var k := |s| - |TrimLeft(s)|;
      assert s[..k] == [s[0]] + s[1..][..k - 1];
    }
  }

  /** `TrimRight` removes a run of trimmable characters from the back and stops at the last other one. */
  lemma {:induction false} TrimRightShape(s: string)
    ensures |TrimRight(s)| <= |s|
    ensures TrimRight(s) == s[..|TrimRight(s)|]
    ensures AllTrimmable(s[|TrimRight(s)|..])
    ensures TrimRight(s) == [] || !IsTrimmable(TrimRight(s)[|TrimRight(s)| - 1])
  {
    if s != [] && IsTrimmable(s[|s| - 1]) {
      var init := s[..|s| - 1];
      TrimRightShape(init);
      var k := |TrimRight(s)|;
      assert s[k..] == init[k..] + [s[|s| - 1]];
    }
  }

  /**
   * Reference definition of `trim`: the result is the infix of `s` left after
   * cutting a trimmable prefix and a trimmable suffix, and it has no trimmable
   * character at either end.
   */
  lemma TrimShape(s: string)
    ensures HasTrimmedEdges(Trim(s))
    ensures exists i, j :: 0 <= i <= j <= |s| && Trim(s) == s[i..j]
                           && AllTrimmable(s[..i]) && AllTrimmable(s[j..])
  {
    var l := TrimLeft(s);
    TrimLeftShape(s);
    TrimRightShape(l);
    var i := |s| - |l|;
    var j := i + |TrimRight(l)|;
    assert Trim(s) == s[i..j];
    assert s[j..] == l[|TrimRight(l)|..];
    if Trim(s) != [] {
      assert Trim(s)[0] == l[0];
    }
  }

  /** A string whose ends are not trimmable is left as it is. */
  lemma TrimKeepsTrimmed(s: string)
    requires HasTrimmedEdges(s)
    ensures Trim(s) == s
  {
  }

  /** `trim` is idempotent: the name a City stores trims to itself. */
  lemma TrimIdempotent(s: string)
    ensures Trim(Trim(s)) == Trim(s)
  {
    TrimShape(s);
    TrimKeepsTrimmed(Trim(s));
  }

  /** `trim` yields '' exactly for strings made only of trimmable characters. */
  lemma TrimEmptyIff(s: string)
    ensures Trim(s) == [] <==> AllTrimmable(s)
  {
    TrimShape(s);
    var i, j :| 0 <= i <= j <= |s| && Trim(s) == s[i..j]
                && AllTrimmable(s[..i]) && AllTrimmable(s[j..]);
    if Trim(s) == [] {
      assert i == j;
      forall k | 0 <= k < |s| ensures IsTrimmable(s[k]) {
        if k < i { assert s[..i][k] == s[k]; } else { assert s[j..][k - j] == s[k]; }
      }
    } else {
      assert s[i] == Trim(s)[0];
    }
  }

  /** ASCII case fold of one character. */
  function LowerChar(c: char): char
  {
    if 'A' <= c <= 'Z' then (c as int + 32) as char else c
  }

  /** `mb_strtolower`, restricted to the ASCII letters (see README). */
  function Lower(s: string): (r: string)
    ensures |r| == |s|
  {
    seq(|s|, i requires 0 <= i < |s| => LowerChar(s[i]))
  }

  /** Folding twice is folding once. */
  lemma LowerIdempotent(s: string)
    ensures Lower(Lower(s)) == Lower(s)
  {
  }
}
