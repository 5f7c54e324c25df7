/** Time stamps as text: comparing the text is comparing the instants. */
module Rfc3339 {
  const EPOCH_DAY: int := 719_528  // days from 0000-01-01 to 1970-01-01

  predicate IsLeap(year: nat) {
    year % 4 == 0 && (year % 100 != 0 || year % 400 == 0)
  }

  function YearLength(year: nat): nat { if IsLeap(year) then 366 else 365 }

  function DaysIn(year: nat, month: nat): nat
    requires 1 <= month <= 12
  {
    if month == 2 then (if IsLeap(year) then 29 else 28)
    else if month == 4 || month == 6 || month == 9 || month == 11 then 30
    else 31
  }

  /** A UTC date and time of the years 0000 to 9999, to the nanosecond. */
  datatype Stamp = Stamp(year: nat, month: nat, day: nat, hour: nat, minute: nat, second: nat, nano: nat) {
    predicate Valid() {
      && year <= 9999 && 1 <= month <= 12 && 1 <= day <= DaysIn(year, month)
      && hour < 24 && minute < 60 && second < 60 && nano < 1_000_000_000
    }
  }

  type Utc = u: Stamp | u.Valid() witness Stamp(1970, 1, 1, 0, 0, 0, 0)

  function DaysBeforeYear(year: nat): nat {
    if year == 0 then 0 else 365 * year + (year - 1) / 4 - (year - 1) / 100 + (year - 1) / 400 + 1
  }

  function DaysBeforeMonth(year: nat, month: nat): nat
    requires 1 <= month <= 13
  {
    if month == 1 then 0 else DaysBeforeMonth(year, month - 1) + DaysIn(year, month - 1)
  }

  function DayNumber(u: Utc): int {
    DaysBeforeYear(u.year) + DaysBeforeMonth(u.year, u.month) + u.day - 1 - EPOCH_DAY
  }

  /** Nanoseconds since the Unix epoch. */
  function Instant(u: Utc): int {
    (((DayNumber(u) * 24 + u.hour) * 60 + u.minute) * 60 + u.second) * 1_000_000_000 + u.nano
  }

  // ---------- field order is time order ----------

  lemma YearStep(year: nat)
    ensures DaysBeforeYear(year + 1) == DaysBeforeYear(year) + YearLength(year)
  {
    if year > 0 {
      QuotientStep(year - 1, 4);
      QuotientStep(year - 1, 100);
      QuotientStep(year - 1, 400);
      CenturiesAreFourths(year);
    }
  }

  lemma CenturiesAreFourths(year: nat)
    ensures year % 400 == 0 ==> year % 100 == 0
    ensures year % 100 == 0 ==> year % 4 == 0
  {
    if year % 400 == 0 { assert year == 100 * (4 * (year / 400)); }
    if year % 100 == 0 { assert year == 4 * (25 * (year / 100)); }
  }

  lemma QuotientStep(n: nat, k: nat)
    requires k == 4 || k == 100 || k == 400
    ensures (n + 1) / k == n / k + (if (n + 1) % k == 0 then 1 else 0)
  { }

  lemma {:induction false} YearsGrow(a: nat, b: nat)
    requires a < b
    ensures DaysBeforeYear(a) + YearLength(a) <= DaysBeforeYear(b)
    decreases b
  {
    YearStep(b - 1);
    if a + 1 < b { YearsGrow(a, b - 1); }
  }

  lemma {:induction false} MonthsGrow(year: nat, a: nat, b: nat)
    requires 1 <= a < b <= 13
    ensures DaysBeforeMonth(year, a) + DaysIn(year, a) <= DaysBeforeMonth(year, b)
    decreases b
  {
    if a + 1 < b { MonthsGrow(year, a, b - 1); }
  }

  lemma YearIsItsMonths(year: nat)
    ensures DaysBeforeMonth(year, 13) == YearLength(year)
  {
    assert DaysBeforeMonth(year, 2) == 31;
    assert DaysBeforeMonth(year, 3) == 31 + DaysIn(year, 2);
    assert DaysBeforeMonth(year, 5) == DaysBeforeMonth(year, 3) + 61;
    assert DaysBeforeMonth(year, 7) == DaysBeforeMonth(year, 5) + 61;
    assert DaysBeforeMonth(year, 9) == DaysBeforeMonth(year, 7) + 62;
    assert DaysBeforeMonth(year, 11) == DaysBeforeMonth(year, 9) + 61;
    assert DaysBeforeMonth(year, 13) == DaysBeforeMonth(year, 11) + 61;
  }

  predicate DateBefore(a: Utc, b: Utc) {
    a.year < b.year || (a.year == b.year && (a.month < b.month || (a.month == b.month && a.day < b.day)))
  }

  lemma DatesInOrder(a: Utc, b: Utc)
    requires DateBefore(a, b)
    ensures DayNumber(a) < DayNumber(b)
  {
    if a.year < b.year {
      YearsGrow(a.year, b.year);
      YearIsItsMonths(a.year);
      MonthsGrow(a.year, a.month, 13);
    } else if a.month < b.month {
      MonthsGrow(a.year, a.month, b.month);
    }
  }

  /** Nanoseconds into the day. */
  function Clock(u: Utc): int {
    ((u.hour * 60 + u.minute) * 60 + u.second) * 1_000_000_000 + u.nano
  }

  predicate ClockBefore(a: Utc, b: Utc) {
    || a.hour < b.hour
    || (a.hour == b.hour && a.minute < b.minute)
    || (a.hour == b.hour && a.minute == b.minute && a.second < b.second)
    || (a.hour == b.hour && a.minute == b.minute && a.second == b.second && a.nano < b.nano)
  }

  lemma ClocksInOrder(a: Utc, b: Utc)
    ensures ClockBefore(a, b) <==> Clock(a) < Clock(b)
    ensures 0 <= Clock(a) < 86_400_000_000_000
    ensures Instant(a) == DayNumber(a) * 86_400_000_000_000 + Clock(a)
  { }

  predicate Before(a: Utc, b: Utc) {
    DateBefore(a, b) || (a.year == b.year && a.month == b.month && a.day == b.day && ClockBefore(a, b))
  }

  lemma FieldsInOrder(a: Utc, b: Utc)
    ensures Before(a, b) <==> Instant(a) < Instant(b)
  {
    hide DayNumber, Clock, ClockBefore, Instant;
    ClocksInOrder(a, b);
    ClocksInOrder(b, a);
    if DateBefore(a, b) { DatesInOrder(a, b); }
    if DateBefore(b, a) { DatesInOrder(b, a); }
    SameDate(a, b);
  }

  lemma SameDate(a: Utc, b: Utc)
    ensures !DateBefore(a, b) && !DateBefore(b, a) ==> DayNumber(a) == DayNumber(b)
  { }

  // ---------- text ----------

  /** Lexicographic order of the characters, a proper prefix coming first. */
  predicate TextLess(a: string, b: string) {
    b != [] && (a == [] || a[0] < b[0] || (a[0] == b[0] && TextLess(a[1..], b[1..])))
  }

  function Digit(n: nat): char
    requires n < 10
  {
    '0' + (n as char)
  }

  /** The last `k` decimal digits of `n`. */
  function Digits(n: nat, k: nat): (s: string)
    ensures |s| == k
  {
    if k == 0 then "" else Digits(n / 10, k - 1) + [Digit(n % 10)]
  }

  const OFFSET: string := "+00:00"

  /** Nothing, or a point and 3, 6 or 9 digits, whichever is shortest and exact; then the offset. */
  function Tail(nano: nat): string {
    if nano == 0 then OFFSET
    else if nano % 1_000_000 == 0 then "." + Digits(nano / 1_000_000, 3) + OFFSET
    else if nano % 1_000 == 0 then "." + Digits(nano / 1_000, 6) + OFFSET
    else "." + Digits(nano, 9) + OFFSET
  }

  function Text(u: Utc): string {
    Digits(u.year, 4) + ("-" + (Digits(u.month, 2) + ("-" + (Digits(u.day, 2) + ("T" +
      (Digits(u.hour, 2) + (":" + (Digits(u.minute, 2) + (":" + (Digits(u.second, 2) + Tail(u.nano)))))))))))
  }

  lemma {:induction false} EqualHeads(p: string, x: string, y: string)
    ensures TextLess(p + x, p + y) <==> TextLess(x, y)
  {
    if p == [] {
      assert p + x == x && p + y == y;
    } else {
      assert (p + x)[1..] == p[1..] + x && (p + y)[1..] == p[1..] + y;
      EqualHeads(p[1..], x, y);
    }
  }

  lemma {:induction false} HeadsDecide(p: string, q: string, x: string, y: string)
    requires |p| == |q| && p != q
    ensures TextLess(p + x, q + y) <==> TextLess(p, q)
  {
    assert (p + x)[1..] == p[1..] + x && (q + y)[1..] == q[1..] + y;
    if p[0] == q[0] {
      assert p == [p[0]] + p[1..] && q == [q[0]] + q[1..];
      HeadsDecide(p[1..], q[1..], x, y);
    }
  }

  predicate Fits(n: nat, k: nat) {
    if k == 0 then n == 0 else Fits(n / 10, k - 1)
  }

  lemma {:induction false} DigitsInOrder(a: nat, b: nat, k: nat)
    requires Fits(a, k) && Fits(b, k)
    ensures TextLess(Digits(a, k), Digits(b, k)) <==> a < b
    ensures Digits(a, k) == Digits(b, k) <==> a == b
  {
    if k > 0 {
      var p, q := Digits(a / 10, k - 1), Digits(b / 10, k - 1);
      var c, d := Digit(a % 10), Digit(b % 10);
      DigitsInOrder(a / 10, b / 10, k - 1);
      assert Digits(a, k)[..k - 1] == p && Digits(b, k)[..k - 1] == q;
      assert Digits(a, k)[k - 1] == c && Digits(b, k)[k - 1] == d;
      if p == q { EqualHeads(p, [c], [d]); } else { HeadsDecide(p, q, [c], [d]); }
    }
  }

  /** A number field followed by more text: the number decides, then the rest. */
  lemma FieldDecides(a: nat, b: nat, k: nat, x: string, y: string)
    requires Fits(a, k) && Fits(b, k)
    ensures TextLess(Digits(a, k) + x, Digits(b, k) + y) <==> a < b || (a == b && TextLess(x, y))
  {
    DigitsInOrder(a, b, k);
    if a == b { EqualHeads(Digits(a, k), x, y); } else { HeadsDecide(Digits(a, k), Digits(b, k), x, y); }
  }

  /** The digits of `n` start with the digits of `n / 1000`. */
  lemma ThreeMoreDigits(n: nat, k: nat)
    requires k >= 3
    ensures Digits(n, k) == Digits(n / 1000, k - 3) + Digits(n % 1000, 3)
  {
    DigitsStep(n, k);
    DigitsStep(n / 10, k - 1);
    DigitsStep(n / 100, k - 2);
    var m := n % 1000;
    DigitsStep(m, 3);
    DigitsStep(m / 10, 2);
    DigitsStep(m / 100, 1);
    TensOfThousand(n);
    hide Digits;
  }

  lemma TensOfThousand(n: nat)
    ensures n / 10 / 10 == n / 100 && n / 100 / 10 == n / 1000
    ensures var m := n % 1000;
            && m / 10 / 10 == m / 100 && m % 10 == n % 10
            && m / 10 % 10 == n / 10 % 10 && m / 100 % 10 == n / 100 % 10
  { }

  lemma DigitsStep(n: nat, k: nat)
    requires k > 0
    ensures Digits(n, k) == Digits(n / 10, k - 1) + [Digit(n % 10)]
  { }

  // ---------- fractions ----------

  /** How many fraction digits are printed. */
  function Places(nano: nat): nat {
    if nano == 0 then 0 else if nano % 1_000_000 == 0 then 3 else if nano % 1_000 == 0 then 6 else 9
  }

  lemma NanosFit(nano: nat)
    requires nano < 1_000_000_000
    ensures Fits(nano, 9) && Fits(nano / 1_000, 6) && Fits(nano / 1_000_000, 3)
  {
    SmallFits(nano / 1_000_000);
    ThreeMoreFit(nano / 1_000, 6);
    ThreeMoreFit(nano, 9);
  }

  lemma SmallFits(n: nat)
    requires n < 1000
    ensures Fits(n, 3)
  {
    assert Fits(n / 10 / 10 / 10, 0);
    assert Fits(n / 10 / 10, 1);
    assert Fits(n / 10, 2);
  }

  lemma ThreeMoreFit(n: nat, k: nat)
    requires k >= 3 && Fits(n / 1000, k - 3)
    ensures Fits(n, k)
  {
    assert n / 10 / 10 / 10 == n / 1000;
    assert Fits(n / 10 / 10, k - 2);
    assert Fits(n / 10, k - 1);
  }

  /** A shorter fraction against a longer one: the longer one's extra digits count as more. */
  lemma ShorterAgainstLonger(a: nat, b: nat, rest: string, k: nat)
    requires Fits(a, k) && Fits(b, k) && rest != [] && '0' <= rest[0] <= '9'
    ensures TextLess(Digits(a, k) + OFFSET, Digits(b, k) + rest) <==> a <= b
    ensures TextLess(Digits(b, k) + rest, Digits(a, k) + OFFSET) <==> b < a
  {
    FieldDecides(a, b, k, OFFSET, rest);
    FieldDecides(b, a, k, rest, OFFSET);
  }

  lemma FirstIsDigit(n: nat, k: nat)
    requires k > 0
    ensures '0' <= Digits(n, k)[0] <= '9'
  {
    if k > 1 { FirstIsDigit(n / 10, k - 1); }
  }

  /** A sign sorts before a point. */
  lemma NoFractionIsLess(b: nat)
    requires Places(b) > 0
    ensures TextLess(Tail(0), Tail(b)) && !TextLess(Tail(b), Tail(0))
  {
    assert Tail(b)[0] == '.';
  }

  lemma {:induction false} TailShorter(a: nat, b: nat)
    requires a < 1_000_000_000 && b < 1_000_000_000
    requires Places(a) < Places(b)
    ensures TextLess(Tail(a), Tail(b)) <==> a < b
    ensures TextLess(Tail(b), Tail(a)) <==> b < a
  {
    hide Digits, TextLess, Fits;
    NanosFit(a);
    NanosFit(b);
    if Places(a) == 0 {
      NoFractionIsLess(b);
    } else if Places(a) == 3 && Places(b) == 6 {
      ThreeMoreDigits(b / 1_000, 6);
      var rest := Digits(b / 1_000 % 1_000, 3);
      FirstIsDigit(b / 1_000 % 1_000, 3);
      assert b / 1_000 / 1_000 == b / 1_000_000;
      AgainstSplit(a / 1_000_000, b / 1_000_000, rest, 3, Digits(b / 1_000, 6));
    } else if Places(a) == 3 {
      ThreeMoreDigits(b, 9);
      ThreeMoreDigits(b / 1_000, 6);
      assert b / 1_000 / 1_000 == b / 1_000_000;
      var rest := Digits(b / 1_000 % 1_000, 3) + Digits(b % 1_000, 3);
      FirstIsDigit(b / 1_000 % 1_000, 3);
      AgainstSplit(a / 1_000_000, b / 1_000_000, rest, 3, Digits(b, 9));
    } else {
      ThreeMoreDigits(b, 9);
      FirstIsDigit(b % 1_000, 3);
      AgainstSplit(a / 1_000, b / 1_000, Digits(b % 1_000, 3), 6, Digits(b, 9));
    }
  }

  lemma AgainstSplit(a: nat, b: nat, rest: string, k: nat, whole: string)
    requires Fits(a, k) && Fits(b, k) && rest != [] && '0' <= rest[0] <= '9'
    requires whole == Digits(b, k) + rest
    ensures TextLess("." + Digits(a, k) + OFFSET, "." + whole + OFFSET) <==> a <= b
    ensures TextLess("." + whole + OFFSET, "." + Digits(a, k) + OFFSET) <==> b < a
  {
    var x, y := Digits(a, k) + OFFSET, Digits(b, k) + (rest + OFFSET);
    ShorterAgainstLonger(a, b, rest + OFFSET, k);
    assert "." + Digits(a, k) + OFFSET == "." + x && "." + whole + OFFSET == "." + y;
    EqualHeads(".", x, y);
    EqualHeads(".", y, x);
  }

  lemma SamePlaces(a: nat, b: nat, k: nat)
    requires Fits(a, k) && Fits(b, k)
    ensures TextLess("." + Digits(a, k) + OFFSET, "." + Digits(b, k) + OFFSET) <==> a < b
  {
    var x, y := Digits(a, k) + OFFSET, Digits(b, k) + OFFSET;
    assert "." + Digits(a, k) + OFFSET == "." + x && "." + Digits(b, k) + OFFSET == "." + y;
    EqualHeads(".", x, y);
    FieldDecides(a, b, k, OFFSET, OFFSET);
    Irreflexive(OFFSET);
  }

  lemma {:induction false} Irreflexive(s: string)
    ensures !TextLess(s, s)
  {
    if s != [] { Irreflexive(s[1..]); }
  }

  lemma TailsInOrder(a: nat, b: nat)
    requires a < 1_000_000_000 && b < 1_000_000_000
    ensures TextLess(Tail(a), Tail(b)) <==> a < b
  {
    NanosFit(a);
    NanosFit(b);
    if Places(a) < Places(b) {
      TailShorter(a, b);
    } else if Places(b) < Places(a) {
      TailShorter(b, a);
    } else if Places(a) == 0 {
      Irreflexive(OFFSET);
    } else if Places(a) == 3 {
      SamePlaces(a / 1_000_000, b / 1_000_000, 3);
    } else if Places(a) == 6 {
      SamePlaces(a / 1_000, b / 1_000, 6);
    } else {
      SamePlaces(a, b, 9);
    }
  }

  // ---------- whole stamps ----------

  lemma FieldsFit(u: Utc)
    ensures Fits(u.year, 4) && Fits(u.month, 2) && Fits(u.day, 2) && Fits(u.hour, 2) && Fits(u.minute, 2)
        && Fits(u.second, 2)
  {
    assert u.day <= 31;
    TwoFit(u.month);
    TwoFit(u.day);
    TwoFit(u.hour);
    TwoFit(u.minute);
    TwoFit(u.second);
    TwoFit(u.year / 10 / 10);
    assert Fits(u.year / 10, 3);
  }

  lemma TwoFit(n: nat)
    requires n < 100
    ensures Fits(n, 2)
  {
    assert Fits(n / 10 / 10, 0);
    assert Fits(n / 10, 1);
  }

  lemma FieldThen(a: nat, b: nat, k: nat, sep: string, x: string, y: string)
    requires Fits(a, k) && Fits(b, k)
    ensures TextLess(Digits(a, k) + (sep + x), Digits(b, k) + (sep + y)) <==> a < b || (a == b && TextLess(x, y))
  {
    FieldDecides(a, b, k, sep + x, sep + y);
    EqualHeads(sep, x, y);
  }

  function ClockText(u: Utc): string {
    Digits(u.hour, 2) + (":" + (Digits(u.minute, 2) + (":" + (Digits(u.second, 2) + Tail(u.nano)))))
  }

  lemma ClockTextsInOrder(a: Utc, b: Utc)
    ensures TextLess(ClockText(a), ClockText(b)) <==> ClockBefore(a, b)
  {
    hide TextLess, Tail, Digits, Fits;
    FieldsFit(a);
    FieldsFit(b);
    TailsInOrder(a.nano, b.nano);
    var x, y := Digits(a.second, 2) + Tail(a.nano), Digits(b.second, 2) + Tail(b.nano);
    FieldDecides(a.second, b.second, 2, Tail(a.nano), Tail(b.nano));
    FieldThen(a.minute, b.minute, 2, ":", x, y);
    FieldThen(a.hour, b.hour, 2, ":", Digits(a.minute, 2) + (":" + x), Digits(b.minute, 2) + (":" + y));
  }

  /** Comparing two RFC 3339 texts as texts is comparing the instants they stand for. */
  lemma TextOrderIsTimeOrder(a: Utc, b: Utc)
    ensures TextLess(Text(a), Text(b)) <==> Instant(a) < Instant(b)
  {
    hide TextLess, Digits, Fits, ClockBefore, Instant, ClockText, Tail;
    FieldsFit(a);
    FieldsFit(b);
    FieldsInOrder(a, b);
    ClockTextsInOrder(a, b);
    var x, y := ClockText(a), ClockText(b);
    TextSplits(a);
    TextSplits(b);
    FieldThen(a.day, b.day, 2, "T", x, y);
    var x1, y1 := Digits(a.day, 2) + ("T" + x), Digits(b.day, 2) + ("T" + y);
    FieldThen(a.month, b.month, 2, "-", x1, y1);
    FieldThen(a.year, b.year, 4, "-", Digits(a.month, 2) + ("-" + x1), Digits(b.month, 2) + ("-" + y1));
  }

  lemma TextSplits(u: Utc)
    ensures var afterMonth := "-" + (Digits(u.day, 2) + ("T" + ClockText(u)));
            Text(u) == Digits(u.year, 4) + ("-" + (Digits(u.month, 2) + afterMonth))
  { }

  // ---------- what the text shows ----------

  /** The number a string of digits spells. */
  function Number(s: string): int {
    if s == "" then 0 else 10 * Number(s[..|s| - 1]) + (s[|s| - 1] as int - '0' as int)
  }

  /** The nanoseconds that the last of so many fraction digits counts. */
  function Unit(digits: nat): nat {
    if digits == 3 then 1_000_000 else if digits == 6 then 1_000 else 1
  }

  lemma {:induction false} DigitsSpell(n: nat, k: nat)
    requires Fits(n, k)
    ensures Number(Digits(n, k)) == n
  {
    if k > 0 {
      DigitsSpell(n / 10, k - 1);
      assert Digits(n, k)[..k - 1] == Digits(n / 10, k - 1);
    }
  }

  /** Each field stands in its place and is spelled out in full; the offset ends the text. */
  lemma TextShowsFields(u: Utc)
    ensures var t := Text(u);
            && |t| >= 25 && t[4] == '-' && t[7] == '-' && t[10] == 'T' && t[13] == ':' && t[16] == ':'
            && Number(t[..4]) == u.year && Number(t[5..7]) == u.month && Number(t[8..10]) == u.day
            && Number(t[11..13]) == u.hour && Number(t[14..16]) == u.minute && Number(t[17..19]) == u.second
            && t[|t| - 6..] == "+00:00" && (u.nano == 0 <==> |t| == 25)
            && (|t| > 25 ==> t[19] == '.' && |t| - 26 in {3, 6, 9}
                             && Number(t[20..|t| - 6]) * Unit(|t| - 26) == u.nano)
  {
    hide Digits, Fits, Number, Tail;
    FieldsFit(u);
    TextPlaces(u);
    DigitsSpell(u.year, 4);
    DigitsSpell(u.month, 2);
    DigitsSpell(u.day, 2);
    DigitsSpell(u.hour, 2);
    DigitsSpell(u.minute, 2);
    DigitsSpell(u.second, 2);
    TailShowsNano(u.nano);
    var t, tail := Text(u), Tail(u.nano);
    assert t[19..] == tail && |t| == 19 + |tail|;
    assert t[|t| - 6..] == tail[|tail| - 6..];
    assert |t| > 25 ==> t[19] == tail[0] && t[20..|t| - 6] == tail[1..|tail| - 6];
  }

  lemma TextPlaces(u: Utc)
    ensures var t := Text(u);
            && |t| == 19 + |Tail(u.nano)|
            && t[..4] == Digits(u.year, 4) && t[5..7] == Digits(u.month, 2) && t[8..10] == Digits(u.day, 2)
            && t[11..13] == Digits(u.hour, 2) && t[14..16] == Digits(u.minute, 2) && t[17..19] == Digits(u.second, 2)
            && t[4] == '-' && t[7] == '-' && t[10] == 'T' && t[13] == ':' && t[16] == ':' && t[19..] == Tail(u.nano)
  {
    hide Digits, Tail;
    var t := Text(u);
    var date := Digits(u.year, 4) + "-" + Digits(u.month, 2) + "-" + Digits(u.day, 2) + "T";
    var clock := Digits(u.hour, 2) + ":" + Digits(u.minute, 2) + ":";
    var second := Digits(u.second, 2) + Tail(u.nano);
    assert |date| == 11 && |clock| == 6;
    assert t == date + (clock + second);
    assert t[..11] == date && t[11..17] == clock && t[17..] == second;
    assert t[17..19] == second[..2] && t[19..] == second[2..];
    assert t[11..13] == clock[..2] && t[14..16] == clock[3..5];
    assert t[..4] == date[..4] && t[5..7] == date[5..7] && t[8..10] == date[8..10];
  }

  lemma TailShowsNano(nano: nat)
    requires nano < 1_000_000_000
    ensures var t := Tail(nano);
            && |t| >= 6 && t[|t| - 6..] == "+00:00" && (nano == 0 <==> |t| == 6)
            && (|t| > 6 ==> t[0] == '.' && |t| - 7 in {3, 6, 9}
                            && Number(t[1..|t| - 6]) * Unit(|t| - 7) == nano)
  {
    hide Digits, Fits, Number;
    NanosFit(nano);
    if nano == 0 {
    } else if nano % 1_000_000 == 0 {
      DigitsSpell(nano / 1_000_000, 3);
      FractionOf(Digits(nano / 1_000_000, 3));
    } else if nano % 1_000 == 0 {
      DigitsSpell(nano / 1_000, 6);
      FractionOf(Digits(nano / 1_000, 6));
    } else {
      DigitsSpell(nano, 9);
      FractionOf(Digits(nano, 9));
    }
  }

  lemma FractionOf(digits: string)
    ensures var t := "." + digits + OFFSET;
            |t| == |digits| + 7 && t[0] == '.' && t[1..|t| - 6] == digits && t[|t| - 6..] == "+00:00"
  { }
}
