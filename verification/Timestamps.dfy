/**
 The text the API stores for an instant, "2006-01-02T15:04:05.000000000Z". Session, challenge
 and token queries compare these texts, so their order must be the order of the instants.
 */
module Timestamps {
  import opened Decimals

  // ---- the calendar -------------------------------------------------------------------------

  predicate IsLeap(year: int) { year % 4 == 0 && (year % 100 != 0 || year % 400 == 0) }

  function MonthLength(year: int, month: int): (days: nat)
    ensures 28 <= days <= 31
  {
    if month == 2 then (if IsLeap(year) then 29 else 28)
    else if month == 4 || month == 6 || month == 9 || month == 11 then 30
    else 31
  }

  /** Days from the start of year 0 to the start of a year. */
  function YearStart(year: nat): nat {
    if year == 0 then 0 else YearStart(year - 1) + MonthStart(year - 1, 13)
  }

  /** Days from the start of a year to the start of a month; month 13 starts the next year. */
  function MonthStart(year: int, month: nat): (days: nat)
    requires 1 <= month <= 13
  {
    if month == 1 then 0 else MonthStart(year, month - 1) + MonthLength(year, month - 1)
  }

  datatype Civil = Civil(year: nat, month: nat, day: nat, hour: nat, minute: nat, second: nat, nano: nat)
  {
    predicate Valid() {
      && 1 <= month <= 12 && 1 <= day <= MonthLength(year, month)
      && hour < 24 && minute < 60 && second < 60 && nano < 1_000_000_000
    }

    function Days(): nat
      requires Valid()
    {
      YearStart(year) + MonthStart(year, month) + day - 1
    }

    function NanoOfDay(): nat {
      ((hour * 60 + minute) * 60 + second) * 1_000_000_000 + nano
    }
  }

  const DAY := 86_400_000_000_000

  /** Nanoseconds since the start of year 0, in UTC. */
  function Instant(c: Civil): nat
    requires c.Valid()
  {
    c.Days() * DAY + c.NanoOfDay()
  }

  // ---- every instant has a civil time -------------------------------------------------------

  function YearOf(days: nat, from: nat): (year: nat)
    requires YearStart(from) <= days
    ensures YearStart(year) <= days < YearStart(year + 1)
    decreases days - YearStart(from)
  {
    MonthStartBounds(from, 13);
    if days < YearStart(from + 1) then from else YearOf(days, from + 1)
  }

  function MonthOf(year: nat, rest: nat, from: nat): (month: nat)
    requires 1 <= from <= 12 && MonthStart(year, from) <= rest < MonthStart(year, 13)
    ensures 1 <= month <= 12 && MonthStart(year, month) <= rest < MonthStart(year, month) + MonthLength(year, month)
    decreases 13 - from
  {
    if rest < MonthStart(year, from + 1) then from else MonthOf(year, rest, from + 1)
  }

  lemma {:induction false} MonthStartBounds(year: int, month: nat)
    requires 1 <= month <= 13
    ensures 28 * (month - 1) <= MonthStart(year, month) <= 31 * (month - 1)
  {
    if month > 1 { MonthStartBounds(year, month - 1); }
  }

  /** time.Time.UTC: the civil time of an instant. */
  function CivilOf(instant: nat): (c: Civil)
    ensures c.Valid() && Instant(c) == instant
  {
    var days, rest := instant / DAY, instant % DAY;
    var year := YearOf(days, 0);
    var month := MonthOf(year, days - YearStart(year), 1);
    var clock := ClockOf(rest);
    clock.(year := year, month := month, day := days - YearStart(year) - MonthStart(year, month) + 1)
  }

  /** The time of day alone, on the first day of year 0. */
  function ClockOf(rest: nat): (c: Civil)
    requires rest < DAY
    ensures c.Valid() && c.NanoOfDay() == rest
  {
    var seconds := rest / 1_000_000_000;
    Civil(0, 1, 1, seconds / 3600, seconds / 60 % 60, seconds % 60, rest % 1_000_000_000)
  }

  // ---- the text -----------------------------------------------------------------------------

  /** A fixed-width number and the separator written after it. */
  datatype Field = Field(value: nat, width: nat, separator: char)

  function Written(fields: seq<Field>): string {
    if fields == [] then []
    else Padded(fields[0].value, fields[0].width) + [fields[0].separator] + Written(fields[1..])
  }

  function Fields(c: Civil): seq<Field> {
    [Field(c.year, 4, '-'), Field(c.month, 2, '-'), Field(c.day, 2, 'T'), Field(c.hour, 2, ':'),
     Field(c.minute, 2, ':'), Field(c.second, 2, '.'), Field(c.nano, 9, 'Z')]
  }

  function DatabaseTimestamp(instant: nat): string { Written(Fields(CivilOf(instant))) }

  /** Byte-wise order of texts, as the TEXT comparisons of the queries use it. */
  predicate Before(a: string, b: string) {
    if a == [] || b == [] then a == [] && b != []
    else if a[0] == b[0] then Before(a[1..], b[1..])
    else a[0] < b[0]
  }

  // ---- order of texts is order of fields ----------------------------------------------------

  lemma {:induction false} BeforeConcat(a: string, b: string, x: string, y: string)
    requires |a| == |b|
    ensures Before(a + x, b + y) <==> Before(a, b) || (a == b && Before(x, y))
  {
    if a == [] {
      assert a + x == x && b + y == y;
    } else {
      assert (a + x)[1..] == a[1..] + x && (b + y)[1..] == b[1..] + y;
      assert a == b <==> a[0] == b[0] && a[1..] == b[1..];
      BeforeConcat(a[1..], b[1..], x, y);
    }
  }

  lemma {:induction false} BeforeIsIrreflexive(a: string)
    ensures !Before(a, a)
  {
    if a != [] { BeforeIsIrreflexive(a[1..]); }
  }

  lemma {:induction false} PaddedOrder(m: nat, n: nat, width: nat)
    requires m < Pow10(width) && n < Pow10(width)
    ensures Before(Padded(m, width), Padded(n, width)) <==> m < n
    ensures Padded(m, width) == Padded(n, width) <==> m == n
  {
    PaddedDenotes(m, width);
    PaddedDenotes(n, width);
    if width > 0 {
      PaddedOrder(m / 10, n / 10, width - 1);
      var c, d := [DigitChar(m % 10)], [DigitChar(n % 10)];
      BeforeConcat(Padded(m / 10, width - 1), Padded(n / 10, width - 1), c, d);
      assert Before(c, d) <==> m % 10 < n % 10;
    }
  }

  predicate Comparable(f: seq<Field>, g: seq<Field>) {
    |f| == |g| && forall i :: 0 <= i < |f| ==>
      && f[i].width == g[i].width && f[i].separator == g[i].separator
      && f[i].value < Pow10(f[i].width) && g[i].value < Pow10(g[i].width)
  }

  predicate LexLess(f: seq<Field>, g: seq<Field>)
    requires |f| == |g|
  {
    f != [] && (f[0].value < g[0].value || (f[0].value == g[0].value && LexLess(f[1..], g[1..])))
  }

  lemma {:induction false} WrittenOrder(f: seq<Field>, g: seq<Field>)
    requires Comparable(f, g)
    ensures Before(Written(f), Written(g)) <==> LexLess(f, g)
  {
    if f != [] {
      var a, b := Padded(f[0].value, f[0].width), Padded(g[0].value, g[0].width);
      PaddedOrder(f[0].value, g[0].value, f[0].width);
      BeforeConcat(a + [f[0].separator], b + [g[0].separator], Written(f[1..]), Written(g[1..]));
      BeforeConcat(a, b, [f[0].separator], [g[0].separator]);
      BeforeIsIrreflexive([f[0].separator]);
      SameEnd(a, b, f[0].separator);
      WrittenOrder(f[1..], g[1..]);
    }
  }

  lemma SameEnd(a: string, b: string, c: char)
    requires |a| == |b|
    ensures a + [c] == b + [c] <==> a == b
  {
    assert (a + [c])[..|a|] == a && (b + [c])[..|b|] == b;
  }

  // ---- order of fields is order of instants -------------------------------------------------

  lemma {:induction false} YearStartsAscend(x: nat, y: nat)
    requires x <= y
    ensures x < y ==> YearStart(x) + MonthStart(x, 13) <= YearStart(y)
    decreases y - x
  {
    if x < y {
      if x < y - 1 {
        YearStartsAscend(x, y - 1);
        MonthStartBounds(y - 1, 13);
      }
    }
  }

  lemma {:induction false} MonthStartsAscend(year: int, x: nat, y: nat)
    requires 1 <= x <= y <= 13
    ensures x < y ==> MonthStart(year, x) + MonthLength(year, x) <= MonthStart(year, y)
    decreases y - x
  {
    if x < y - 1 { MonthStartsAscend(year, x, y - 1); }
  }

  predicate EarlierDate(a: Civil, b: Civil) {
    a.year < b.year || (a.year == b.year && (a.month < b.month || (a.month == b.month && a.day < b.day)))
  }

  lemma EarlierDateFewerDays(a: Civil, b: Civil)
    requires a.Valid() && b.Valid() && EarlierDate(a, b)
    ensures a.Days() < b.Days()
  {
    MonthStartsAscend(a.year, a.month, 13);
    if a.year < b.year {
      YearStartsAscend(a.year, b.year);
    } else if a.month < b.month {
      MonthStartsAscend(a.year, a.month, b.month);
    }
  }

  predicate EarlierTime(a: Civil, b: Civil) {
    a.hour < b.hour || (a.hour == b.hour && (a.minute < b.minute || (a.minute == b.minute
      && (a.second < b.second || (a.second == b.second && a.nano < b.nano)))))
  }

  lemma EarlierTimeFewerNanos(a: Civil, b: Civil)
    requires a.Valid() && b.Valid() && EarlierTime(a, b)
    ensures a.NanoOfDay() < b.NanoOfDay()
  {
  }

  lemma NanoWithinDay(c: Civil)
    requires c.Valid()
    ensures c.NanoOfDay() < DAY
  {
  }

  predicate Earlier(a: Civil, b: Civil) {
    EarlierDate(a, b) || ((a.year, a.month, a.day) == (b.year, b.month, b.day) && EarlierTime(a, b))
  }

  lemma EarlierMeansSmaller(a: Civil, b: Civil)
    requires a.Valid() && b.Valid() && Earlier(a, b)
    ensures Instant(a) < Instant(b)
  {
    NanoWithinDay(a);
    if EarlierDate(a, b) {
      EarlierDateFewerDays(a, b);
    } else {
      EarlierTimeFewerNanos(a, b);
    }
  }

  lemma LexCons(f: Field, g: Field, fs: seq<Field>, gs: seq<Field>)
    requires |fs| == |gs|
    ensures LexLess([f] + fs, [g] + gs) <==> f.value < g.value || (f.value == g.value && LexLess(fs, gs))
  {
    assert ([f] + fs)[1..] == fs && ([g] + gs)[1..] == gs;
  }

  lemma EarlierTimeIsLexLess(a: Civil, b: Civil)
    ensures LexLess(Fields(a)[3..], Fields(b)[3..]) <==> EarlierTime(a, b)
  {
    var f, g := Fields(a), Fields(b);
    assert f[6..] == [f[6]] + [] && g[6..] == [g[6]] + [];
    LexCons(f[6], g[6], [], []);
    assert f[5..] == [f[5]] + f[6..] && g[5..] == [g[5]] + g[6..];
    LexCons(f[5], g[5], f[6..], g[6..]);
    assert f[4..] == [f[4]] + f[5..] && g[4..] == [g[4]] + g[5..];
    LexCons(f[4], g[4], f[5..], g[5..]);
    assert f[3..] == [f[3]] + f[4..] && g[3..] == [g[3]] + g[4..];
    LexCons(f[3], g[3], f[4..], g[4..]);
  }

  lemma EarlierIsLexLess(a: Civil, b: Civil)
    ensures LexLess(Fields(a), Fields(b)) <==> Earlier(a, b)
  {
    var f, g := Fields(a), Fields(b);
    EarlierTimeIsLexLess(a, b);
    assert f[2..] == [f[2]] + f[3..] && g[2..] == [g[2]] + g[3..];
    LexCons(f[2], g[2], f[3..], g[3..]);
    assert f[1..] == [f[1]] + f[2..] && g[1..] == [g[1]] + g[2..];
    LexCons(f[1], g[1], f[2..], g[2..]);
    assert f == [f[0]] + f[1..] && g == [g[0]] + g[1..];
    LexCons(f[0], g[0], f[1..], g[1..]);
  }

  lemma FieldsComparable(a: Civil, b: Civil)
    requires a.Valid() && b.Valid() && a.year < 10_000 && b.year < 10_000
    ensures Comparable(Fields(a), Fields(b))
  {
    assert Pow10(2) == 100 && Pow10(4) == 10_000 && Pow10(9) == 1_000_000_000;
  }

  /**
   For UTC instants of the years 0 to 9999 the stored texts are ordered exactly as the
   instants are, so an expiry compared as text is compared as time.
   */
  lemma TextOrderIsTimeOrder(i: nat, j: nat)
    requires CivilOf(i).year < 10_000 && CivilOf(j).year < 10_000
    ensures Before(DatabaseTimestamp(i), DatabaseTimestamp(j)) <==> i < j
  {
    var a, b := CivilOf(i), CivilOf(j);
    FieldsComparable(a, b);
    WrittenOrder(Fields(a), Fields(b));
    EarlierIsLexLess(a, b);
    if Earlier(a, b) {
      EarlierMeansSmaller(a, b);
    } else if Earlier(b, a) {
      EarlierMeansSmaller(b, a);
    } else {
      assert a == b;
    }
  }
}
