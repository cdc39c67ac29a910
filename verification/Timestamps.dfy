/** Stored timestamps are RFC 3339 text with the trailing zeros of the fraction trimmed (Go's RFC3339Nano, always UTC),
    and SQL cutoffs compare that text byte by byte. How far does that agree with time? */
module Timestamps {

  /** A moment in the years 0 to 9999, to the nanosecond. */
  datatype Instant = Instant(year: int, month: int, day: int, hour: int, minute: int, second: int, nano: int)

  predicate Leap(y: int) {
    y % 4 == 0 && (y % 100 != 0 || y % 400 == 0)
  }

  function DaysIn(y: int, m: int): int {
    if m == 2 then (if Leap(y) then 29 else 28)
    else if m == 4 || m == 6 || m == 9 || m == 11 then 30 else 31
  }

  predicate Valid(t: Instant) {
    && 0 <= t.year <= 9999 && 1 <= t.month <= 12 && 1 <= t.day <= DaysIn(t.year, t.month)
    && 0 <= t.hour < 24 && 0 <= t.minute < 60 && 0 <= t.second < 60 && 0 <= t.nano < 1_000_000_000
  }

  // ---- time ----

  /** Days before the first of month `m`. */
  function DaysBeforeMonth(y: int, m: int): (d: int)
    requires 1 <= m <= 13
    ensures d >= 0
    decreases m
  {
    if m == 1 then 0 else DaysBeforeMonth(y, m - 1) + DaysIn(y, m - 1)
  }

  function DaysInYear(y: int): int {
    if Leap(y) then 366 else 365
  }

  function DaysBeforeYear(y: nat): int {
    if y == 0 then 0 else DaysBeforeYear(y - 1) + DaysInYear(y - 1)
  }

  function Seconds(t: Instant): int
    requires Valid(t)
  {
    ((DaysBeforeYear(t.year) + DaysBeforeMonth(t.year, t.month) + t.day - 1) * 24 + t.hour) * 3600 + t.minute * 60 + t.second
  }

  function Nanos(t: Instant): int
    requires Valid(t)
  {
    Seconds(t) * 1_000_000_000 + t.nano
  }

  // ---- text ----

  type Digits = seq<int>

  /** `n` in `width` decimal digits. */
  function Decimal(n: int, width: nat): (s: Digits)
    requires n >= 0
    ensures |s| == width && forall i :: 0 <= i < width ==> 0 <= s[i] <= 9
    decreases width
  {
    if width == 0 then [] else Decimal(n / 10, width - 1) + [n % 10]
  }

  function TrimZeros(s: Digits): (r: Digits)
    ensures r <= s
  {
    if s != [] && s[|s| - 1] == 0 then TrimZeros(s[..|s| - 1]) else s
  }

  /** The fraction digits as written. */
  function Fraction(t: Instant): Digits
    requires Valid(t)
  {
    TrimZeros(Decimal(t.nano, 9))
  }

  /** Codes that order like the bytes '-' < '.' < digits < ':' < 'T' < 'Z'. */
  const DASH := -2
  const DOT := -1
  const COLON := 10
  const TEE := 11
  const ZED := 12

  function DateTime(t: Instant): (s: seq<int>)
    requires Valid(t)
    ensures |s| == 19
  {
    Decimal(t.year, 4) + [DASH] + Decimal(t.month, 2) + [DASH] + Decimal(t.day, 2) + [TEE]
    + Decimal(t.hour, 2) + [COLON] + Decimal(t.minute, 2) + [COLON] + Decimal(t.second, 2)
  }

  function Rest(t: Instant): seq<int>
    requires Valid(t)
  {
    (if Fraction(t) == [] then [] else [DOT] + Fraction(t)) + [ZED]
  }

  /** timestamp() */
  function Text(t: Instant): seq<int>
    requires Valid(t)
  {
    DateTime(t) + Rest(t)
  }

  /** Bytewise order. */
  predicate Less(a: seq<int>, b: seq<int>) {
    b != [] && (a == [] || a[0] < b[0] || (a[0] == b[0] && Less(a[1..], b[1..])))
  }

  predicate LessEq(a: seq<int>, b: seq<int>) {
    a == b || Less(a, b)
  }

  // ---- lexicographic order ----

  lemma {:induction false} LessAfterPrefix(p: seq<int>, a: seq<int>, b: seq<int>)
    ensures Less(p + a, p + b) == Less(a, b)
  {
    if p == [] {
      assert p + a == a && p + b == b;
    } else {
      LessAfterPrefix(p[1..], a, b);
      assert (p + a)[1..] == p[1..] + a && (p + b)[1..] == p[1..] + b;
    }
  }

  lemma {:induction false} LessOfEqualLength(p: seq<int>, q: seq<int>, a: seq<int>, b: seq<int>)
    requires |p| == |q| && p != q
    ensures Less(p + a, q + b) == Less(p, q)
  {
    if p[0] == q[0] {
      assert p == [p[0]] + p[1..] && q == [q[0]] + q[1..];
      LessOfEqualLength(p[1..], q[1..], a, b);
      assert (p + a)[1..] == p[1..] + a && (q + b)[1..] == q[1..] + b;
    }
  }

  lemma {:induction false} LessIsTotal(a: seq<int>, b: seq<int>)
    ensures Less(a, b) || a == b || Less(b, a)
    ensures !(Less(a, b) && (Less(b, a) || a == b))
  {
    if a != [] && b != [] {
      LessIsTotal(a[1..], b[1..]);
      assert a == [a[0]] + a[1..] && b == [b[0]] + b[1..];
    }
  }

  /** Fixed-width decimals order like their numbers. */
  lemma {:induction false} DecimalOrder(m: int, n: int, width: nat)
    requires 0 <= m < Pow10(width) && 0 <= n < Pow10(width)
    ensures Less(Decimal(m, width), Decimal(n, width)) <==> m < n
    ensures Decimal(m, width) == Decimal(n, width) <==> m == n
    decreases width
  {
    if width > 0 {
      var p, q := Decimal(m / 10, width - 1), Decimal(n / 10, width - 1);
      DecimalOrder(m / 10, n / 10, width - 1);
      assert Decimal(m, width) == p + [m % 10] && Decimal(n, width) == q + [n % 10];
      LastDigit(p, q, m % 10, n % 10);
      assert m == 10 * (m / 10) + m % 10 && n == 10 * (n / 10) + n % 10;
    }
  }

  /** Numbers of one length are ordered by all digits but the last, then by the last. */
  lemma LastDigit(p: Digits, q: Digits, x: int, y: int)
    requires |p| == |q|
    ensures Less(p + [x], q + [y]) <==> Less(p, q) || (p == q && x < y)
    ensures p + [x] == q + [y] <==> p == q && x == y
  {
    assert (p + [x])[..|p|] == p && (q + [y])[..|q|] == q && (p + [x])[|p|] == x && (q + [y])[|q|] == y;
    if p == q {
      LessAfterPrefix(p, [x], [y]);
      LessIsTotal(p, q);
    } else {
      LessOfEqualLength(p, q, [x], [y]);
    }
  }

  function Pow10(n: nat): (p: int)
    ensures p >= 1
  {
    if n == 0 then 1 else 10 * Pow10(n - 1)
  }

  // ---- the date-time part is exact ----

  lemma {:induction false} MonthsGrow(y: int, m: int, n: int)
    requires 1 <= m < n <= 13
    ensures DaysBeforeMonth(y, m) + DaysIn(y, m) <= DaysBeforeMonth(y, n)
    decreases n
  {
    if m + 1 < n {
      MonthsGrow(y, m, n - 1);
    }
  }

  lemma {:induction false} YearsGrow(y: nat, z: nat)
    requires y < z
    ensures DaysBeforeYear(y) + DaysInYear(y) <= DaysBeforeYear(z)
    decreases z
  {
    if y + 1 < z {
      YearsGrow(y, z - 1);
    }
  }

  lemma YearLength(y: int)
    ensures DaysBeforeMonth(y, 13) == DaysInYear(y)
  {
    assert DaysBeforeMonth(y, 4) == 59 + (if Leap(y) then 1 else 0) + 31;
    assert DaysBeforeMonth(y, 7) == DaysBeforeMonth(y, 4) + 91;
    assert DaysBeforeMonth(y, 10) == DaysBeforeMonth(y, 7) + 92;
    assert DaysBeforeMonth(y, 13) == DaysBeforeMonth(y, 10) + 92;
  }

  /** Lexicographic order of the civil fields. */
  predicate Earlier(a: Instant, b: Instant) {
    if a.year != b.year then a.year < b.year
    else if a.month != b.month then a.month < b.month
    else if a.day != b.day then a.day < b.day
    else if a.hour != b.hour then a.hour < b.hour
    else if a.minute != b.minute then a.minute < b.minute
    else a.second < b.second
  }

  predicate SameSecond(a: Instant, b: Instant) {
    a.(nano := 0) == b.(nano := 0)
  }

  function DayNumber(t: Instant): int
    requires Valid(t)
  {
    DaysBeforeYear(t.year) + DaysBeforeMonth(t.year, t.month) + t.day - 1
  }

  lemma EarlierDay(a: Instant, b: Instant)
    requires Valid(a) && Valid(b)
    requires a.year < b.year || (a.year == b.year && (a.month < b.month || (a.month == b.month && a.day < b.day)))
    ensures DayNumber(a) < DayNumber(b)
  {
    if a.year < b.year {
      YearsGrow(a.year, b.year);
      YearLength(a.year);
      MonthsGrow(a.year, a.month, 13);
    } else if a.month < b.month {
      MonthsGrow(a.year, a.month, b.month);
    }
  }

  /** Field order is time order, to the second. */
  lemma EarlierMeansBefore(a: Instant, b: Instant)
    requires Valid(a) && Valid(b) && Earlier(a, b)
    ensures Seconds(a) < Seconds(b)
  {
    if a.year != b.year || a.month != b.month || a.day != b.day {
      EarlierDay(a, b);
    }
  }

  lemma NanosIsInjective(a: Instant, b: Instant)
    requires Valid(a) && Valid(b) && Nanos(a) == Nanos(b)
    ensures a == b
  {
    if Earlier(a, b) {
      EarlierMeansBefore(a, b);
    } else if Earlier(b, a) {
      EarlierMeansBefore(b, a);
    }
  }

  lemma FieldsInRange(t: Instant)
    requires Valid(t)
    ensures t.year < Pow10(4) && t.month < Pow10(2) && t.day < Pow10(2) && t.hour < Pow10(2) && t.minute < Pow10(2) && t.second < Pow10(2)
  {
    assert Pow10(1) == 10 && Pow10(2) == 100 && Pow10(3) == 1000 && Pow10(4) == 10000;
  }

  /** One fixed-width field followed by the rest of the text. */
  lemma FieldStep(m: int, n: int, width: nat, mark: seq<int>, a: seq<int>, b: seq<int>)
    requires 0 <= m < Pow10(width) && 0 <= n < Pow10(width)
    ensures Less(Decimal(m, width) + (mark + a), Decimal(n, width) + (mark + b)) <==> m < n || (m == n && Less(a, b))
    ensures Decimal(m, width) + (mark + a) == Decimal(n, width) + (mark + b) ==> m == n
  {
    var p, q := Decimal(m, width), Decimal(n, width);
    DecimalOrder(m, n, width);
    if p == q {
      LessAfterPrefix(p, mark + a, mark + b);
      LessAfterPrefix(mark, a, b);
    } else {
      LessOfEqualLength(p, q, mark + a, mark + b);
      assert (p + (mark + a))[..width] == p && (q + (mark + b))[..width] == q;
    }
  }

  function Nested(t: Instant, rest: seq<int>): seq<int>
    requires Valid(t)
  {
    Decimal(t.year, 4) + ([DASH] + (Decimal(t.month, 2) + ([DASH] + (Decimal(t.day, 2) + ([TEE]
    + (Decimal(t.hour, 2) + ([COLON] + (Decimal(t.minute, 2) + ([COLON] + (Decimal(t.second, 2) + ([] + rest)))))))))))
  }

  lemma TextIsNested(t: Instant)
    requires Valid(t)
    ensures Text(t) == Nested(t, Rest(t))
  {
  }

  /** The text is ordered by the civil fields first and by the written fraction only within a second. */
  lemma TextOrder(a: Instant, b: Instant)
    requires Valid(a) && Valid(b)
    ensures Less(Text(a), Text(b)) <==> Earlier(a, b) || (SameSecond(a, b) && Less(Rest(a), Rest(b)))
  {
    FieldsInRange(a);
    FieldsInRange(b);
    TextIsNested(a);
    TextIsNested(b);
    var a6, b6 := Rest(a), Rest(b);
    FieldStep(a.second, b.second, 2, [], a6, b6);
    var a5, b5 := Decimal(a.second, 2) + ([] + a6), Decimal(b.second, 2) + ([] + b6);
    FieldStep(a.minute, b.minute, 2, [COLON], a5, b5);
    var a4, b4 := Decimal(a.minute, 2) + ([COLON] + a5), Decimal(b.minute, 2) + ([COLON] + b5);
    FieldStep(a.hour, b.hour, 2, [COLON], a4, b4);
    var a3, b3 := Decimal(a.hour, 2) + ([COLON] + a4), Decimal(b.hour, 2) + ([COLON] + b4);
    FieldStep(a.day, b.day, 2, [TEE], a3, b3);
    var a2, b2 := Decimal(a.day, 2) + ([TEE] + a3), Decimal(b.day, 2) + ([TEE] + b3);
    FieldStep(a.month, b.month, 2, [DASH], a2, b2);
    var a1, b1 := Decimal(a.month, 2) + ([DASH] + a2), Decimal(b.month, 2) + ([DASH] + b2);
    FieldStep(a.year, b.year, 4, [DASH], a1, b1);
  }

  // ---- the fraction is not ----

  /** Proper prefix. */
  predicate Extends(longer: Digits, shorter: Digits) {
    shorter < longer
  }

  lemma {:induction false} TrimmedZeros(s: Digits)
    ensures forall i :: |TrimZeros(s)| <= i < |s| ==> s[i] == 0
    ensures TrimZeros(s) != [] ==> TrimZeros(s)[|TrimZeros(s)| - 1] != 0
  {
    if s != [] && s[|s| - 1] == 0 {
      TrimmedZeros(s[..|s| - 1]);
    }
  }

  /** Two digit strings of one width compare like their trimmed forms, with a shorter one counting as smaller. */
  lemma TrimKeepsOrder(s: Digits, t: Digits)
    requires |s| == |t| && (forall i :: 0 <= i < |s| ==> 0 <= s[i] <= 9 && 0 <= t[i] <= 9)
    ensures Less(s, t) <==> Less(TrimZeros(s), TrimZeros(t))
    ensures s == t <==> TrimZeros(s) == TrimZeros(t)
  {
    var a, b := TrimZeros(s), TrimZeros(t);
    TrimmedZeros(s);
    TrimmedZeros(t);
    PaddedOrder(s, t, a, b);
    LessIsTotal(s, t);
    LessIsTotal(a, b);
  }

  /** `a` and `b` cut off only zeros of `s` and `t` and do not end in zero. */
  lemma {:induction false} PaddedOrder(s: Digits, t: Digits, a: Digits, b: Digits)
    requires |s| == |t| && (forall i :: 0 <= i < |s| ==> 0 <= s[i] <= 9 && 0 <= t[i] <= 9)
    requires a <= s && b <= t
    requires forall i :: |a| <= i < |s| ==> s[i] == 0
    requires forall i :: |b| <= i < |t| ==> t[i] == 0
    requires a != [] ==> a[|a| - 1] != 0
    requires b != [] ==> b[|b| - 1] != 0
    ensures Less(s, t) <==> Less(a, b)
    ensures s == t <==> a == b
  {
    if a == [] {
      ZerosLeast(s, t, b);
    } else if b == [] {
      ZerosLeast(t, s, a);
      LessIsTotal(s, t);
    } else {
      if s[0] == t[0] {
        assert s == [s[0]] + s[1..] && t == [t[0]] + t[1..] && a == [a[0]] + a[1..] && b == [b[0]] + b[1..];
        PaddedOrder(s[1..], t[1..], a[1..], b[1..]);
      }
    }
  }

  lemma {:induction false} ZerosLeast(s: Digits, t: Digits, b: Digits)
    requires |s| == |t| && (forall i :: 0 <= i < |s| ==> s[i] == 0 && 0 <= t[i] <= 9)
    requires b <= t && (forall i :: |b| <= i < |t| ==> t[i] == 0) && (b != [] ==> b[|b| - 1] != 0)
    ensures Less(s, t) <==> b != []
    ensures s == t <==> b == []
    ensures !Less(t, s)
  {
    if s != [] {
      if b != [] && t[0] == 0 {
        ZerosLeast(s[1..], t[1..], b[1..]);
        assert s == [s[0]] + s[1..] && t == [t[0]] + t[1..];
      } else if b == [] {
        ZerosLeast(s[1..], t[1..], []);
        assert s == [s[0]] + s[1..] && t == [t[0]] + t[1..];
      }
    }
  }

  /** Closed by Z, which sorts after every digit, an extension comes before what it extends. */
  lemma {:induction false} ClosedOrder(f: Digits, g: Digits)
    requires (forall i :: 0 <= i < |f| ==> 0 <= f[i] <= 9) && (forall i :: 0 <= i < |g| ==> 0 <= g[i] <= 9)
    ensures Less(f + [ZED], g + [ZED]) <==> (Less(f, g) && !Extends(g, f)) || Extends(f, g)
  {
    if f == [] {
      assert f + [ZED] == [ZED];
      if g != [] {
        assert (g + [ZED])[0] == g[0];
      }
    } else if g == [] {
      assert g + [ZED] == [ZED];
      assert (f + [ZED])[0] == f[0];
    } else {
      assert (f + [ZED])[1..] == f[1..] + [ZED] && (g + [ZED])[1..] == g[1..] + [ZED];
      assert (f + [ZED])[0] == f[0] && (g + [ZED])[0] == g[0];
      assert f == [f[0]] + f[1..] && g == [g[0]] + g[1..];
      if f[0] == g[0] {
        ClosedOrder(f[1..], g[1..]);
        assert Extends(g, f) <==> Extends(g[1..], f[1..]);
        assert Extends(f, g) <==> Extends(f[1..], g[1..]);
      }
    }
  }

  lemma FractionDigits(t: Instant)
    requires Valid(t)
    ensures forall i :: 0 <= i < |Fraction(t)| ==> 0 <= Fraction(t)[i] <= 9
  {
  }

  lemma RestOrder(a: Instant, b: Instant)
    requires Valid(a) && Valid(b)
    ensures Less(Rest(a), Rest(b)) <==>
              (Less(Fraction(a), Fraction(b)) && !Extends(Fraction(b), Fraction(a))) || Extends(Fraction(a), Fraction(b))
  {
    var f, g := Fraction(a), Fraction(b);
    FractionDigits(a);
    FractionDigits(b);
    if f != [] && g != [] {
      assert Rest(a) == [DOT] + (f + [ZED]) && Rest(b) == [DOT] + (g + [ZED]);
      LessAfterPrefix([DOT], f + [ZED], g + [ZED]);
      ClosedOrder(f, g);
    } else if f == [] && g == [] {
      assert Rest(a) == [ZED] == Rest(b);
    } else if f == [] {
      assert Rest(a) == [ZED] && Rest(b)[0] == DOT;
    } else {
      assert Rest(b) == [ZED] && Rest(a)[0] == DOT;
    }
  }

  /** Nanoseconds compare like the written fractions. */
  lemma FractionOrder(a: Instant, b: Instant)
    requires Valid(a) && Valid(b)
    ensures a.nano < b.nano <==> Less(Fraction(a), Fraction(b))
    ensures a.nano == b.nano <==> Fraction(a) == Fraction(b)
  {
    assert Pow10(3) == 1000 && Pow10(6) == 1_000_000 && Pow10(9) == 1_000_000_000;
    DecimalOrder(a.nano, b.nano, 9);
    TrimKeepsOrder(Decimal(a.nano, 9), Decimal(b.nano, 9));
  }

  // ---- main results ----

  /** The text order in terms of time: it is wrong exactly inside a second, when one written fraction continues the other. */
  lemma TextOrderIsTimeOrderExceptPrefixes(a: Instant, b: Instant)
    requires Valid(a) && Valid(b)
    ensures Less(Text(a), Text(b)) <==>
              (Nanos(a) < Nanos(b) && !(SameSecond(a, b) && Extends(Fraction(b), Fraction(a))))
              || (SameSecond(a, b) && Extends(Fraction(a), Fraction(b)))
  {
    TextOrder(a, b);
    if Earlier(a, b) {
      EarlierMeansBefore(a, b);
    } else if Earlier(b, a) {
      EarlierMeansBefore(b, a);
    } else {
      assert SameSecond(a, b);
      RestOrder(a, b);
      FractionOrder(a, b);
    }
  }

  /** Consequences for cutoffs: instants at least a second apart are ordered right, and a textual "not after" is never
      wrong by a second or more. */
  lemma TextCutoffsAreWithinOneSecond(a: Instant, b: Instant)
    requires Valid(a) && Valid(b)
    ensures Nanos(a) + 1_000_000_000 <= Nanos(b) ==> Less(Text(a), Text(b)) && !LessEq(Text(b), Text(a))
    ensures LessEq(Text(a), Text(b)) ==> Nanos(a) < Nanos(b) + 1_000_000_000
  {
    TextOrderIsTimeOrderExceptPrefixes(a, b);
    TextOrderIsTimeOrderExceptPrefixes(b, a);
    LessIsTotal(Text(a), Text(b));
  }

  /** The exception is real: half past the second is written before the second itself. */
  lemma TextOrderCanBeWrong()
    ensures var a, b := Instant(2026, 7, 23, 8, 0, 0, 0), Instant(2026, 7, 23, 8, 0, 0, 500_000_000);
            Valid(a) && Valid(b) && Nanos(a) < Nanos(b) && Less(Text(b), Text(a))
  {
    var a, b := Instant(2026, 7, 23, 8, 0, 0, 0), Instant(2026, 7, 23, 8, 0, 0, 500_000_000);
    TextOrderIsTimeOrderExceptPrefixes(b, a);
    FractionOrder(a, b);
    TrimmedZeros(Decimal(0, 9));
    assert Fraction(a) == [] by { ZeroDigits(9); }
    assert Fraction(b) != [];
  }

  lemma {:induction false} ZeroDigits(width: nat)
    ensures TrimZeros(Decimal(0, width)) == []
  {
    if width > 0 {
      ZeroDigits(width - 1);
      assert Decimal(0, width)[..width - 1] == Decimal(0, width - 1);
    }
  }
}
