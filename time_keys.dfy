/**
 * Clock values, two-digit formatting, 5-minute bucket keys and the
 * lexicographic string order Python uses for `<=` on `str`.
 */
module TimeKeys {

  type Hour = h: int | 0 <= h < 24
  type Minute = m: int | 0 <= m < 60

  /** Width of a synthesized bar, in minutes. */
  const BarWidth: nat := 5

  /** The wall clock the monitoring loop reads: time of day plus an absolute second count. */
  datatype Clock = Clock(hour: Hour, minute: Minute, now: int)

  predicate IsDigit(c: char) { '0' <= c <= '9' }

  function DigitChar(d: nat): (c: char)
    requires d < 10
    ensures IsDigit(c)
  {
    (48 + d) as char
  }

  function DigitValue(c: char): (d: nat)
    requires IsDigit(c)
    ensures d < 10
  {
    c as int - 48
  }

  /** Python's `f"{n:02d}"` for 0 <= n < 100. */
  function TwoDigits(n: nat): (s: string)
    requires n < 100
    ensures |s| == 2 && IsDigit(s[0]) && IsDigit(s[1])
  {
    [DigitChar(n / 10), DigitChar(n % 10)]
  }

  /** `int(s)` for a two-character digit string. */
  function ParseTwoDigits(s: string): (n: nat)
    requires |s| == 2 && IsDigit(s[0]) && IsDigit(s[1])
    ensures n < 100
  {
    10 * DigitValue(s[0]) + DigitValue(s[1])
  }

  /** Formatting then parsing gives the number back. */
  lemma TwoDigitsRoundTrip(n: nat)
    requires n < 100
    ensures ParseTwoDigits(TwoDigits(n)) == n
  {
  }

  /** Parsing then formatting gives the digit string back. */
  lemma ParseTwoDigitsRoundTrip(s: string)
    requires |s| == 2 && IsDigit(s[0]) && IsDigit(s[1])
    ensures TwoDigits(ParseTwoDigits(s)) == s
  {
    var n := ParseTwoDigits(s);
    assert n / 10 == DigitValue(s[0]) && n % 10 == DigitValue(s[1]);
  }

  /** Start minute of the bucket holding `minute`: `(minute // 5) * 5`. */
  function BucketMinute(minute: nat): (b: nat)
    ensures b <= minute
  {
    (minute / BarWidth) * BarWidth
  }

  /** The bucket start is the multiple of five at or just below the minute. */
  lemma BucketMinuteBounds(minute: nat)
    ensures var b := BucketMinute(minute); minute < b + BarWidth && b % BarWidth == 0
  {
  }

  /** `f"{hour:02d}{(minute // 5) * 5:02d}"`, the candle-memory bucket tag. */
  function BucketKey(hour: Hour, minute: Minute): (k: string)
    ensures |k| == 4
  {
    TwoDigits(hour) + TwoDigits(BucketMinute(minute))
  }

  /** Two times of day share a bucket key exactly when they share hour and 5-minute slot. */
  lemma BucketKeyInjective(h1: Hour, m1: Minute, h2: Hour, m2: Minute)
    ensures BucketKey(h1, m1) == BucketKey(h2, m2) <==> h1 == h2 && m1 / BarWidth == m2 / BarWidth
  {
    var a, b := BucketKey(h1, m1), BucketKey(h2, m2);
    if a == b {
      assert a[..2] == TwoDigits(h1) && b[..2] == TwoDigits(h2);
      assert a[2..] == TwoDigits(BucketMinute(m1)) && b[2..] == TwoDigits(BucketMinute(m2));
      TwoDigitsRoundTrip(h1);
      TwoDigitsRoundTrip(h2);
      TwoDigitsRoundTrip(BucketMinute(m1));
      TwoDigitsRoundTrip(BucketMinute(m2));
    }
  }

  /** Python's `a <= b` on strings: lexicographic by code point, a prefix first. */
  predicate LexLe(a: string, b: string)
    decreases |a|
  {
    |a| == 0 || (|b| > 0 && (a[0] < b[0] || (a[0] == b[0] && LexLe(a[1..], b[1..]))))
  }

  predicate LexLt(a: string, b: string) { LexLe(a, b) && a != b }

  lemma {:induction false} LexLeReflexive(a: string)
    ensures LexLe(a, a)
    decreases |a|
  {
    if |a| > 0 { LexLeReflexive(a[1..]); }
  }

  /** Any two strings are comparable, which is what a sort needs. */
  lemma {:induction false} LexLeTotal(a: string, b: string)
    ensures LexLe(a, b) || LexLe(b, a)
    decreases |a|
  {
    if |a| > 0 && |b| > 0 && a[0] == b[0] { LexLeTotal(a[1..], b[1..]); }
  }

  lemma {:induction false} LexLeTransitive(a: string, b: string, c: string)
    requires LexLe(a, b) && LexLe(b, c)
    ensures LexLe(a, c)
    decreases |a|
  {
    if |a| > 0 && a[0] == b[0] && b[0] == c[0] { LexLeTransitive(a[1..], b[1..], c[1..]); }
  }

  lemma {:induction false} LexLeAntisymmetric(a: string, b: string)
    requires LexLe(a, b) && LexLe(b, a)
    ensures a == b
    decreases |a|
  {
    if |a| > 0 {
      LexLeAntisymmetric(a[1..], b[1..]);
      assert a == [a[0]] + a[1..] && b == [b[0]] + b[1..];
    }
  }

  /** A common prefix does not change the comparison. */
  lemma {:induction false} LexLePrefix(p: string, x: string, y: string)
    requires LexLe(x, y)
    ensures LexLe(p + x, p + y)
    decreases |p|
  {
    if |p| == 0 {
      assert p + x == x && p + y == y;
    } else {
      assert (p + x)[1..] == p[1..] + x && (p + y)[1..] == p[1..] + y;
      LexLePrefix(p[1..], x, y);
    }
  }

  /** On two-digit strings the lexicographic order is the numeric order. */
  lemma TwoDigitsOrder(m: nat, n: nat)
    requires m < 100 && n < 100
    ensures LexLe(TwoDigits(m), TwoDigits(n)) <==> m <= n
  {
    var s, t := TwoDigits(m), TwoDigits(n);
    assert s[1..][1..] == [] && t[1..][1..] == [];
    assert LexLe(s[1..], t[1..]) <==> s[1] <= t[1];
    assert s[0] as int == 48 + m / 10 && t[0] as int == 48 + n / 10;
    assert s[1] as int == 48 + m % 10 && t[1] as int == 48 + n % 10;
  }
}
