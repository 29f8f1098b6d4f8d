/** The few string operations the source uses on paths and names. */
module Text {

  /** `s.split(c)[-1]`: the text after the last `c`, or all of `s` when `c` does not occur. */
  function AfterLast(s: string, c: char): (r: string)
    ensures c !in r
    ensures |r| <= |s| && r == s[|s| - |r|..]
    ensures c in s ==> |r| < |s| && s[|s| - |r| - 1] == c
    ensures c !in s ==> r == s
  {
    if s == [] then []
    else if s[|s| - 1] == c then []
    else
      var init := s[..|s| - 1];
      assert s == init + [s[|s| - 1]];
      AfterLast(init, c) + [s[|s| - 1]]
  }

  /** The text after a `c` that no later `c` follows. */
  lemma {:induction false} AfterLastSuffix(s: string, c: char, t: string)
    requires c !in t
    ensures AfterLast(s + [c] + t, c) == t
  {
    if t != [] {
      var init := t[..|t| - 1];
      AfterLastSuffix(s, c, init);
      assert s + [c] + t == (s + [c] + init) + [t[|t| - 1]];
    }
  }

  /**
   * The last '/'-separated segment of `s` that is neither empty nor ".", or "" when there is
   * none.
   */
  function LastSegment(s: string): (r: string)
    ensures '/' !in r && r != "."
    ensures '/' !in s && s != "." ==> r == s
    decreases |s|
  {
    var seg := AfterLast(s, '/');
    if seg != "" && seg != "." then seg
    else if '/' in s then LastSegment(s[..|s| - |seg| - 1])
    else ""
  }

  lemma LastSegmentAfter(dir: string, seg: string)
    requires '/' !in seg && seg != "" && seg != "."
    ensures LastSegment(dir + "/" + seg) == seg
  {
    assert dir + "/" + seg == dir + ['/'] + seg;
    AfterLastSuffix(dir, '/', seg);
  }

  lemma LastSegmentTrailing(s: string)
    ensures LastSegment(s + "/") == LastSegment(s)
    ensures LastSegment(s + "/.") == LastSegment(s)
  {
    AfterLastSuffix(s, '/', "");
    assert s + "/" == s + ['/'] + [];
    assert (s + "/")[..|s|] == s;
    AfterLastSuffix(s, '/', ".");
    assert s + "/." == s + ['/'] + ".";
    assert (s + "/.")[..|s|] == s;
  }

  /** `s.split(c)[0]`: the text before the first `c`, or all of `s` when `c` does not occur. */
  function BeforeFirst(s: string, c: char): (r: string)
    ensures c !in r
    ensures |r| <= |s| && r == s[..|r|]
    ensures c in s ==> |r| < |s| && s[|r|] == c
    ensures c !in s ==> r == s
  {
    if s == [] then []
    else if s[0] == c then []
    else
      assert s == [s[0]] + s[1..];
      [s[0]] + BeforeFirst(s[1..], c)
  }

  /** `s.replace(c, rep)` for a single-character pattern. */
  function ReplaceChar(s: string, c: char, rep: string): (r: string)
    ensures c !in rep ==> c !in r
    ensures c !in s ==> r == s
    ensures |rep| == 1 ==> |r| == |s|
  {
    if s == [] then []
    else (if s[0] == c then rep else [s[0]]) + ReplaceChar(s[1..], c, rep)
  }

  /** Decimal digits of a natural number, as Python's `str(n)`. */
  function NatToString(n: nat): (r: string)
    ensures |r| > 0
    ensures forall i :: 0 <= i < |r| ==> '0' <= r[i] <= '9'
  {
    var d := ['0' + (n % 10) as char];
    if n < 10 then d else NatToString(n / 10) + d
  }
}
