/** How go-crawler/internal/stream/stream.go writes its cursors: UTC times in
    RFC 3339 with up to nine fraction digits, compared as strings. */
module Timestamp {
  import opened Wrappers

  /** A UTC time by its civil fields. */
  datatype Time = Time(year: nat, month: nat, day: nat, hour: nat, minute: nat, second: nat, nano: nat)

  /** A field with what follows it. */
  datatype Field = Field(value: nat, width: nat, after: string)

  function Pow10(w: nat): (p: nat)
    ensures p > 0
  {
    if w == 0 then 1 else 10 * Pow10(w - 1)
  }

  function Fields(t: Time): seq<Field> {
    [Field(t.year, 4, "-"), Field(t.month, 2, "-"), Field(t.day, 2, "T"),
     Field(t.hour, 2, ":"), Field(t.minute, 2, ":"), Field(t.second, 2, "")]
  }

  /** Times with a four-digit year; the calendar itself plays no part. */
  predicate Ordinary(t: Time) {
    && t.year < 10000 && t.month < 100 && t.day < 100 && t.hour < 100 && t.minute < 100 && t.second < 100
    && t.nano < Pow10(9)
  }

  function Digit(d: nat): char
    requires d < 10
  {
    '0' + d as char
  }

  /** n in w digits. */
  function Digits(n: nat, w: nat): (s: string)
    ensures |s| == w && forall i | 0 <= i < w :: '0' <= s[i] <= '9'
  {
    if w == 0 then "" else Digits(n / 10, w - 1) + [Digit(n % 10)]
  }

  function Render(fields: seq<Field>): string {
    if fields == [] then "" else Digits(fields[0].value, fields[0].width) + fields[0].after + Render(fields[1..])
  }

  function DropZeros(s: string): (r: string)
    ensures |r| <= |s| && r == s[..|r|]
    ensures r != "" ==> r[|r| - 1] != '0'
    ensures forall i | |r| <= i < |s| :: s[i] == '0'
  {
    if s != "" && s[|s| - 1] == '0' then DropZeros(s[..|s| - 1]) else s
  }

  /** The fraction's digits without trailing zeros. */
  function Fraction(nano: nat): string {
    DropZeros(Digits(nano, 9))
  }

  /** `t.UTC().Format(time.RFC3339Nano)` */
  function Format(t: Time): string {
    Render(Fields(t)) + Tail(Fraction(t.nano))
  }

  function Tail(fraction: string): string {
    (if fraction == "" then "" else "." + fraction) + "Z"
  }

  /** Lua's `a < b` on strings. */
  predicate Less(a: string, b: string) {
    b != "" && (a == "" || a[0] < b[0] || (a[0] == b[0] && Less(a[1..], b[1..])))
  }

  predicate BeforeIn(a: seq<Field>, b: seq<Field>)
    requires |a| == |b|
  {
    a != [] && (a[0].value < b[0].value || (a[0].value == b[0].value && BeforeIn(a[1..], b[1..])))
  }

  predicate SameSecond(t: Time, u: Time) {
    && t.year == u.year && t.month == u.month && t.day == u.day
    && t.hour == u.hour && t.minute == u.minute && t.second == u.second
  }

  /** t is in an earlier second than u: the greatest unit that differs decides. */
  predicate EarlierSecond(t: Time, u: Time) {
    if t.year != u.year then t.year < u.year
    else if t.month != u.month then t.month < u.month
    else if t.day != u.day then t.day < u.day
    else if t.hour != u.hour then t.hour < u.hour
    else if t.minute != u.minute then t.minute < u.minute
    else t.second < u.second
  }

  /** t is earlier than u. */
  predicate Before(t: Time, u: Time) {
    EarlierSecond(t, u) || (SameSecond(t, u) && t.nano < u.nano)
  }

  predicate ProperPrefix(a: string, b: string) {
    a < b
  }

  /** The pairs of times that the strings put in the wrong order: same second,
      and one's fraction digits begin the other's. */
  predicate Confused(t: Time, u: Time) {
    && SameSecond(t, u)
    && (ProperPrefix(Fraction(t.nano), Fraction(u.nano)) || ProperPrefix(Fraction(u.nano), Fraction(t.nano)))
  }

  // ---- string order -------------------------------------------------------------------

  lemma {:induction false} LessConcat(a: string, b: string, c: string, d: string)
    requires |a| == |b|
    ensures Less(a + c, b + d) <==> Less(a, b) || (a == b && Less(c, d))
  {
    if a == "" {
      assert a + c == c && b + d == d;
    } else {
      assert (a + c)[1..] == a[1..] + c && (b + d)[1..] == b[1..] + d;
      LessConcat(a[1..], b[1..], c, d);
      assert a == [a[0]] + a[1..] && b == [b[0]] + b[1..];
    }
  }

  lemma {:induction false} LessIrreflexive(a: string)
    ensures !Less(a, a)
  {
    if a != "" {
      LessIrreflexive(a[1..]);
    }
  }

  /** The first difference decides. */
  lemma LessAt(a: string, b: string, i: nat)
    requires i < |a| && i < |b| && a[..i] == b[..i] && a[i] != b[i]
    ensures Less(a, b) <==> a[i] < b[i]
  {
    assert a == a[..i] + a[i..] && b == b[..i] + b[i..];
    LessConcat(a[..i], b[..i], a[i..], b[i..]);
    LessIrreflexive(a[..i]);
    assert a[i..][0] == a[i] && b[i..][0] == b[i];
  }

  lemma {:induction false} DigitsOrder(n: nat, m: nat, w: nat)
    requires n < Pow10(w) && m < Pow10(w)
    ensures Less(Digits(n, w), Digits(m, w)) <==> n < m
    ensures Digits(n, w) == Digits(m, w) <==> n == m
  {
    if w > 0 {
      DigitsOrder(n / 10, m / 10, w - 1);
      var a, b := Digits(n / 10, w - 1), Digits(m / 10, w - 1);
      var x, y := Digit(n % 10), Digit(m % 10);
      LessConcat(a, b, [x], [y]);
      assert Less([x], [y]) <==> n % 10 < m % 10;
      assert (a + [x])[..w - 1] == a && (b + [y])[..w - 1] == b;
      assert (a + [x])[w - 1] == x && (b + [y])[w - 1] == y;
    }
  }

  // ---- whole seconds ------------------------------------------------------------------------

  /** Same layout, and every value fits its width. */
  ghost predicate Alike(a: seq<Field>, b: seq<Field>) {
    && |a| == |b|
    && forall i | 0 <= i < |a| ::
         a[i].width == b[i].width && a[i].after == b[i].after
         && a[i].value < Pow10(a[i].width) && b[i].value < Pow10(a[i].width)
  }

  lemma LessField(x: string, y: string, s: string, c: string, d: string)
    requires |x| == |y|
    ensures Less(x + s + c, y + s + d) <==> Less(x, y) || (x == y && Less(c, d))
  {
    LessConcat(x + s, y + s, c, d);
    LessConcat(x, y, s, s);
    LessIrreflexive(s);
    assert (x + s)[..|x|] == x && (y + s)[..|y|] == y;
  }

  lemma RenderCons(a: seq<Field>, c: string)
    requires a != []
    ensures Render(a) + c == Digits(a[0].value, a[0].width) + a[0].after + (Render(a[1..]) + c)
  {
  }

  lemma {:induction false} RenderOrder(a: seq<Field>, b: seq<Field>, c: string, d: string)
    requires Alike(a, b)
    ensures Less(Render(a) + c, Render(b) + d) <==> BeforeIn(a, b) || (a == b && Less(c, d))
  {
    if a == [] {
      assert Render(a) + c == c && Render(b) + d == d;
    } else {
      RenderOrder(a[1..], b[1..], c, d);
      RenderCons(a, c);
      RenderCons(b, d);
      DigitsOrder(a[0].value, b[0].value, a[0].width);
      LessField(Digits(a[0].value, a[0].width), Digits(b[0].value, b[0].width), a[0].after,
                Render(a[1..]) + c, Render(b[1..]) + d);
      SameFields(a, b);
    }
  }

  lemma SameFields(a: seq<Field>, b: seq<Field>)
    requires Alike(a, b) && a != []
    ensures a == b <==> a[0].value == b[0].value && a[1..] == b[1..]
  {
    assert a == [a[0]] + a[1..] && b == [b[0]] + b[1..];
  }

  /** The fields are in the order of their weight. */
  lemma FieldsDecide(t: Time, u: Time)
    ensures BeforeIn(Fields(t), Fields(u)) <==> EarlierSecond(t, u)
    ensures Fields(t) == Fields(u) <==> SameSecond(t, u)
  {
    var a, b := Fields(t), Fields(u);
    assert a[0].value == t.year && a[1].value == t.month && a[2].value == t.day;
    assert a[3].value == t.hour && a[4].value == t.minute && a[5].value == t.second;
    assert b[0].value == u.year && b[1].value == u.month && b[2].value == u.day;
    assert b[3].value == u.hour && b[4].value == u.minute && b[5].value == u.second;
    FromField(a, b, 0);
    FromField(a, b, 1);
    FromField(a, b, 2);
    FromField(a, b, 3);
    FromField(a, b, 4);
    FromField(a, b, 5);
    assert a[0..] == a && b[0..] == b && a[6..] == [] && b[6..] == [];
  }

  lemma FromField(a: seq<Field>, b: seq<Field>, k: nat)
    requires k < |a| == |b|
    ensures BeforeIn(a[k..], b[k..])
       <==> a[k].value < b[k].value || (a[k].value == b[k].value && BeforeIn(a[k + 1..], b[k + 1..]))
  {
    assert a[k..][1..] == a[k + 1..] && b[k..][1..] == b[k + 1..];
  }

  lemma OrdinaryAlike(t: Time, u: Time)
    requires Ordinary(t) && Ordinary(u)
    ensures Alike(Fields(t), Fields(u))
  {
    assert Pow10(0) == 1 && Pow10(1) == 10 && Pow10(2) == 100 && Pow10(3) == 1000 && Pow10(4) == 10000;
  }

  // ---- fractions ---------------------------------------------------------------------------------

  lemma {:induction false} ZerosAreLeast(z: string, s: string)
    requires |z| == |s| && forall i | 0 <= i < |s| :: z[i] == '0' && '0' <= s[i]
    ensures Less(z, s) <==> z != s
  {
    if s != "" {
      ZerosAreLeast(z[1..], s[1..]);
      assert z == [z[0]] + z[1..] && s == [s[0]] + s[1..];
    }
  }

  lemma PrefixFraction(f: string, g: string)
    requires ProperPrefix(f, g) && '0' <= g[|f|] <= '9'
    ensures !Less(Tail(f), Tail(g)) && Less(Tail(g), Tail(f))
  {
    if f != "" {
      assert Tail(f)[..|f| + 1] == "." + f == Tail(g)[..|f| + 1];
      LessAt(Tail(f), Tail(g), |f| + 1);
      LessAt(Tail(g), Tail(f), |f| + 1);
    }
  }

  /** A fraction that begins another is the smaller one. */
  lemma PrefixIsSmaller(n: nat, m: nat)
    requires n < Pow10(9) && m < Pow10(9) && ProperPrefix(Fraction(n), Fraction(m))
    ensures n < m
  {
    var a, b, f := Digits(n, 9), Digits(m, 9), Fraction(n);
    assert a == f + a[|f|..] && b == f + b[|f|..];
    LessConcat(f, f, a[|f|..], b[|f|..]);
    ZerosAreLeast(a[|f|..], b[|f|..]);
    var last := |Fraction(m)| - 1;
    assert b[|f|..][last - |f|] == b[last] == Fraction(m)[last];
    DigitsOrder(n, m, 9);
  }

  lemma SameFraction(n: nat, m: nat)
    requires n < Pow10(9) && m < Pow10(9) && Fraction(n) == Fraction(m)
    ensures n == m
  {
    assert forall i | 0 <= i < 9 :: Digits(n, 9)[i] == Digits(m, 9)[i];
    DigitsOrder(n, m, 9);
  }

  lemma {:induction false} FirstDifference(f: string, g: string) returns (i: nat)
    requires f != g && !ProperPrefix(f, g) && !ProperPrefix(g, f)
    ensures i < |f| && i < |g| && f[..i] == g[..i] && f[i] != g[i]
  {
    if f[0] != g[0] {
      i := 0;
    } else {
      assert f == [f[0]] + f[1..] && g == [g[0]] + g[1..];
      var j := FirstDifference(f[1..], g[1..]);
      i := j + 1;
      assert f[..i] == [f[0]] + f[1..][..j] && g[..i] == [g[0]] + g[1..][..j];
    }
  }

  lemma TailAt(f: string, i: nat)
    requires i < |f|
    ensures |Tail(f)| == |f| + 2 && Tail(f)[..i + 1] == "." + f[..i] && Tail(f)[i + 1] == f[i]
  {}

  lemma TailOrder(f: string, g: string, i: nat)
    requires i < |f| && i < |g| && f[..i] == g[..i] && f[i] != g[i]
    ensures Less(Tail(f), Tail(g)) <==> f[i] < g[i]
  {
    TailAt(f, i);
    TailAt(g, i);
    LessAt(Tail(f), Tail(g), i + 1);
  }

  lemma FractionAt(n: nat, i: nat)
    requires i < |Fraction(n)|
    ensures i < 9 && Digits(n, 9)[..i] == Fraction(n)[..i] && Digits(n, 9)[i] == Fraction(n)[i]
  {}

  /** Fractions that differ digit by digit compare like the numbers. */
  lemma DifferentFractions(n: nat, m: nat)
    requires n < Pow10(9) && m < Pow10(9) && Fraction(n) != Fraction(m)
    requires !ProperPrefix(Fraction(n), Fraction(m)) && !ProperPrefix(Fraction(m), Fraction(n))
    ensures Less(Tail(Fraction(n)), Tail(Fraction(m))) <==> n < m
  {
    var i := FirstDifference(Fraction(n), Fraction(m));
    FractionAt(n, i);
    FractionAt(m, i);
    LessAt(Digits(n, 9), Digits(m, 9), i);
    DigitsOrder(n, m, 9);
    TailOrder(Fraction(n), Fraction(m), i);
  }

  lemma FractionOrder(n: nat, m: nat)
    requires n < Pow10(9) && m < Pow10(9)
    ensures var f, g := Fraction(n), Fraction(m);
      Less(Tail(f), Tail(g)) <==> if ProperPrefix(f, g) then false else if ProperPrefix(g, f) then true else n < m
  {
    var f, g := Fraction(n), Fraction(m);
    if ProperPrefix(f, g) {
      PrefixFraction(f, g);
    } else if ProperPrefix(g, f) {
      PrefixFraction(g, f);
    } else if f == g {
      SameFraction(n, m);
      LessIrreflexive(Tail(f));
    } else {
      DifferentFractions(n, m);
    }
  }

  // ---- the comparison the cursor relies on ---------------------------------------------------------

  /** String order is time order, except exactly for confused pairs. */
  lemma OrderExactly(t: Time, u: Time)
    requires Ordinary(t) && Ordinary(u)
    ensures (Less(Format(t), Format(u)) <==> Before(t, u)) <==> !Confused(t, u)
  {
    OrdinaryAlike(t, u);
    FieldsDecide(t, u);
    RenderOrder(Fields(t), Fields(u), Tail(Fraction(t.nano)), Tail(Fraction(u.nano)));
    FractionOrder(t.nano, u.nano);
    NotBeforeItself(Fields(t));
    if ProperPrefix(Fraction(t.nano), Fraction(u.nano)) {
      PrefixIsSmaller(t.nano, u.nano);
    } else if ProperPrefix(Fraction(u.nano), Fraction(t.nano)) {
      PrefixIsSmaller(u.nano, t.nano);
    }
  }

  lemma {:induction false} NotBeforeItself(a: seq<Field>)
    ensures !BeforeIn(a, a)
  {
    if a != [] {
      NotBeforeItself(a[1..]);
    }
  }

  /** Whole seconds are never confused, nor are fractions of equal length. */
  lemma EqualLengthsAreSafe(t: Time, u: Time)
    requires Ordinary(t) && Ordinary(u) && |Fraction(t.nano)| == |Fraction(u.nano)|
    ensures !Confused(t, u) && (Less(Format(t), Format(u)) <==> Before(t, u))
  {
    OrderExactly(t, u);
  }

  lemma BeforeTransitive(t: Time, u: Time, v: Time)
    requires Before(t, u) && Before(u, v)
    ensures Before(t, v)
  {}

  // ---- reading a cursor back -------------------------------------------------------------------

  predicate IsDigit(c: char) {
    '0' <= c <= '9'
  }

  function NumberOf(s: string): nat {
    if s == "" then 0
    else 10 * NumberOf(s[..|s| - 1]) + if IsDigit(s[|s| - 1]) then s[|s| - 1] as nat - '0' as nat else 0
  }

  /** w digits and the text that has to follow them; what is left. */
  function ParseField(s: string, w: nat, after: string): Option<(nat, string)> {
    if |s| >= w && (forall i | 0 <= i < w :: IsDigit(s[i])) && after <= s[w..]
    then Some((NumberOf(s[..w]), s[w + |after|..])) else None
  }

  function Zeros(n: nat): (s: string)
    ensures |s| == n && forall i | 0 <= i < n :: s[i] == '0'
  {
    seq(n, _ => '0')
  }

  /** The fraction, of at most nine digits, and the zone, which is UTC here. */
  function ParseTail(s: string): Option<nat> {
    if s == "Z" then Some(0)
    else if 2 < |s| <= 11 && s[0] == '.' && s[|s| - 1] == 'Z' && forall i | 1 <= i < |s| - 1 :: IsDigit(s[i]) then
      Some(NumberOf(s[1..|s| - 1] + Zeros(11 - |s|)))
    else None
  }

  /** `time.Parse(time.RFC3339Nano, s)` for UTC times. */
  function Parse(s: string): Option<Time> {
    var year :- ParseField(s, 4, "-");
    var month :- ParseField(year.1, 2, "-");
    var day :- ParseField(month.1, 2, "T");
    var hour :- ParseField(day.1, 2, ":");
    var minute :- ParseField(hour.1, 2, ":");
    var second :- ParseField(minute.1, 2, "");
    var nano :- ParseTail(second.1);
    Some(Time(year.0, month.0, day.0, hour.0, minute.0, second.0, nano))
  }

  lemma {:induction false} DigitsBack(n: nat, w: nat)
    requires n < Pow10(w)
    ensures NumberOf(Digits(n, w)) == n
  {
    if w > 0 {
      DigitsBack(n / 10, w - 1);
      assert Digits(n, w)[..w - 1] == Digits(n / 10, w - 1);
    }
  }

  lemma FieldBack(n: nat, w: nat, after: string, rest: string)
    requires n < Pow10(w)
    ensures ParseField(Digits(n, w) + after + rest, w, after) == Some((n, rest))
  {
    var s := Digits(n, w) + after + rest;
    assert s[..w] == Digits(n, w) && s[w..] == after + rest && s[w + |after|..] == rest;
    DigitsBack(n, w);
  }

  lemma {:induction false} ZerosAreZero(s: string)
    requires forall i | 0 <= i < |s| :: s[i] == '0'
    ensures NumberOf(s) == 0
  {
    if s != "" {
      ZerosAreZero(s[..|s| - 1]);
    }
  }

  lemma TailParts(f: string)
    requires f != ""
    ensures Tail(f) != "Z" && |Tail(f)| == |f| + 2 && Tail(f)[0] == '.' && Tail(f)[|f| + 1] == 'Z'
    ensures Tail(f)[1..|f| + 1] == f && forall i | 1 <= i < |f| + 1 :: Tail(f)[i] == f[i - 1]
  {}

  lemma TailBack(nano: nat)
    requires nano < Pow10(9)
    ensures ParseTail(Tail(Fraction(nano))) == Some(nano)
  {
    var f, all := Fraction(nano), Digits(nano, 9);
    DigitsBack(nano, 9);
    if f == "" {
      ZerosAreZero(all);
    } else {
      TailParts(f);
      assert all == f + Zeros(9 - |f|);
    }
  }

  /** What GetCursor reads is the time that was stored. */
  lemma ParseFormat(t: Time)
    requires Ordinary(t)
    ensures Parse(Format(t)) == Some(t)
  {
    var tail := Tail(Fraction(t.nano));
    assert Pow10(0) == 1 && Pow10(1) == 10 && Pow10(2) == 100 && Pow10(3) == 1000 && Pow10(4) == 10000;
    var second := Digits(t.second, 2) + "" + tail;
    var minute := Digits(t.minute, 2) + ":" + second;
    var hour := Digits(t.hour, 2) + ":" + minute;
    var day := Digits(t.day, 2) + "T" + hour;
    var month := Digits(t.month, 2) + "-" + day;
    FormatIs(t, second, minute, hour, day, month);
    FieldBack(t.year, 4, "-", month);
    FieldBack(t.month, 2, "-", day);
    FieldBack(t.day, 2, "T", hour);
    FieldBack(t.hour, 2, ":", minute);
    FieldBack(t.minute, 2, ":", second);
    FieldBack(t.second, 2, "", tail);
    TailBack(t.nano);
  }

  lemma FormatIs(t: Time, second: string, minute: string, hour: string, day: string, month: string)
    requires second == Digits(t.second, 2) + "" + Tail(Fraction(t.nano))
    requires minute == Digits(t.minute, 2) + ":" + second && hour == Digits(t.hour, 2) + ":" + minute
    requires day == Digits(t.day, 2) + "T" + hour && month == Digits(t.month, 2) + "-" + day
    ensures Format(t) == Digits(t.year, 4) + "-" + month
  {
    var a, c := Fields(t), Tail(Fraction(t.nano));
    assert a[6..] == [] && Render(a[6..]) + c == c;
    FieldsFrom(a, 5, c);
    assert Render(a[5..]) + c == second;
    FieldsFrom(a, 4, c);
    FieldsFrom(a, 3, c);
    assert Render(a[3..]) + c == hour;
    FieldsFrom(a, 2, c);
    FieldsFrom(a, 1, c);
    assert Render(a[1..]) + c == month;
    FieldsFrom(a, 0, c);
    assert a[0..] == a;
  }

  lemma FieldsFrom(a: seq<Field>, k: nat, c: string)
    requires k < |a|
    ensures Render(a[k..]) + c == Digits(a[k].value, a[k].width) + a[k].after + (Render(a[k + 1..]) + c)
  {
    RenderCons(a[k..], c);
    assert a[k..][1..] == a[k + 1..];
  }

  /** The stored string determines the time. */
  lemma FormatInjective(t: Time, u: Time)
    requires Ordinary(t) && Ordinary(u) && Format(t) == Format(u)
    ensures t == u
  {
    ParseFormat(t);
    ParseFormat(u);
  }
}
