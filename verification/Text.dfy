/** The string operations that the Python and Go sources share. */
module Text {
  /** Python's `str.isspace` and `\\s`. */
  predicate IsSpace(c: char) {
    var n := c as int;
    || 9 <= n <= 13 || 28 <= n <= 32 || n == 0x85 || n == 0xA0 || n == 0x1680
    || 0x2000 <= n <= 0x200A || n == 0x2028 || n == 0x2029 || n == 0x202F || n == 0x205F || n == 0x3000
  }

  /** Go's `unicode.IsSpace`: without the four separators 0x1C to 0x1F. */
  predicate IsSpaceGo(c: char) {
    IsSpace(c) && !(28 <= c as int <= 31)
  }

  function TrimLeft(space: char -> bool, s: string): string {
    if s != [] && space(s[0]) then TrimLeft(space, s[1..]) else s
  }

  function TrimRight(space: char -> bool, s: string): string {
    if s != [] && space(s[|s| - 1]) then TrimRight(space, s[..|s| - 1]) else s
  }

  function Trim(space: char -> bool, s: string): string {
    TrimRight(space, TrimLeft(space, s))
  }

  /** `s.strip()` */
  function Strip(s: string): string {
    Trim(IsSpace, s)
  }

  /** `strings.TrimSpace(s)` */
  function TrimSpace(s: string): string {
    Trim(IsSpaceGo, s)
  }

  predicate Trimmed(space: char -> bool, s: string) {
    s != [] ==> !space(s[0]) && !space(s[|s| - 1])
  }

  predicate Blank(space: char -> bool, s: string) {
    forall i | 0 <= i < |s| :: space(s[i])
  }

  /** Stripped and not empty. */
  predicate Clean(p: string) {
    p != "" && Trimmed(IsSpace, p)
  }

  /** Where the whitespace run that starts at i ends. */
  function RunEnd(s: string, i: nat): (e: nat)
    requires i <= |s|
    ensures i <= e <= |s| && forall k | i <= k < e :: IsSpace(s[k])
    ensures e < |s| ==> !IsSpace(s[e])
    decreases |s| - i
  {
    if i < |s| && IsSpace(s[i]) then RunEnd(s, i + 1) else i
  }

  function Join(parts: seq<string>, sep: string): string {
    if parts == [] then ""
    else if |parts| == 1 then parts[0]
    else Join(parts[..|parts| - 1], sep) + sep + parts[|parts| - 1]
  }

  lemma {:induction false} TrimLeftFacts(space: char -> bool, s: string)
    ensures var t := TrimLeft(space, s);
      && |t| <= |s| && t == s[|s| - |t|..] && Blank(space, s[..|s| - |t|])
      && (t != [] ==> !space(t[0]))
  {
    if s != [] && space(s[0]) {
      TrimLeftFacts(space, s[1..]);
      var t := TrimLeft(space, s[1..]);
      assert s[..|s| - |t|] == [s[0]] + s[1..][..|s[1..]| - |t|];
    } else {
      assert s[0..] == s;
    }
  }

  lemma {:induction false} TrimRightFacts(space: char -> bool, s: string)
    ensures var t := TrimRight(space, s);
      && |t| <= |s| && t == s[..|t|] && Blank(space, s[|t|..])
      && (t != [] ==> !space(t[|t| - 1]))
  {
    if s != [] && space(s[|s| - 1]) {
      var n := |s| - 1;
      TrimRightFacts(space, s[..n]);
      var t := TrimRight(space, s[..n]);
      assert s[|t|..] == s[..n][|t|..] + [s[n]];
    } else {
      assert s[..|s|] == s;
    }
  }

  /** Trimming cuts whitespace off both ends and leaves a trimmed text. */
  lemma TrimFacts(space: char -> bool, s: string) returns (lo: nat, hi: nat)
    ensures lo <= hi <= |s| && Trim(space, s) == s[lo..hi]
    ensures Blank(space, s[..lo]) && Blank(space, s[hi..])
    ensures Trimmed(space, Trim(space, s))
  {
    TrimLeftFacts(space, s);
    var t := TrimLeft(space, s);
    TrimRightFacts(space, t);
    var u := TrimRight(space, t);
    lo, hi := |s| - |t|, |s| - |t| + |u|;
    assert s[hi..] == t[|u|..];
  }

  lemma {:induction false} TrimLeftBlank(space: char -> bool, w: string, s: string)
    requires Blank(space, w)
    ensures TrimLeft(space, w + s) == TrimLeft(space, s)
  {
    if w == [] {
      assert w + s == s;
    } else {
      assert (w + s)[1..] == w[1..] + s;
      TrimLeftBlank(space, w[1..], s);
    }
  }

  lemma {:induction false} TrimRightBlank(space: char -> bool, s: string, w: string)
    requires Blank(space, w)
    ensures TrimRight(space, s + w) == TrimRight(space, s)
  {
    if w == [] {
      assert s + w == s;
    } else {
      assert (s + w)[..|s + w| - 1] == s + w[..|w| - 1];
      TrimRightBlank(space, s, w[..|w| - 1]);
    }
  }

  /** A trimmed text inside whitespace is what trimming finds. */
  lemma TrimInside(space: char -> bool, w: string, s: string, w': string)
    requires Blank(space, w) && Blank(space, w') && Trimmed(space, s)
    ensures Trim(space, w + s + w') == s
  {
    assert w + s + w' == w + (s + w');
    TrimLeftBlank(space, w, s + w');
    if s == [] {
      assert s + w' == w' + [];
      TrimLeftBlank(space, w', []);
    } else {
      assert (s + w')[0] == s[0];
      TrimRightBlank(space, s, w');
    }
  }

  lemma TrimTrimmed(space: char -> bool, s: string)
    requires Trimmed(space, s)
    ensures Trim(space, s) == s
  {
    TrimInside(space, [], s, []);
    assert [] + s + [] == s;
  }

  /** A text is all whitespace exactly when it trims to nothing. */
  lemma TrimEmpty(space: char -> bool, s: string)
    ensures Trim(space, s) == "" <==> Blank(space, s)
  {
    if Blank(space, s) {
      TrimInside(space, s, [], []);
      assert s + [] + [] == s;
    } else {
      var lo, hi := TrimFacts(space, s);
      assert s == s[..lo] + s[lo..hi] + s[hi..];
    }
  }

  lemma TrimShrinks(space: char -> bool, s: string)
    ensures |Trim(space, s)| <= |s|
  {
    var lo, hi := TrimFacts(space, s);
  }
}
