/**
 The proleptic Gregorian calendar. Months are numbered from January of year 0
 and days from 1 January 1970; a date is its day number at local midnight.
 */
module Gregorian {
  const EPOCH_MONTH := 23640

  datatype CivilDate = CivilDate(year: int, month: int, date: int)

  predicate IsLeap(y: int) {
    y % 4 == 0 && (y % 100 != 0 || y % 400 == 0)
  }

  /** Days in month `n`. */
  function MonthLength(n: int): (len: int)
    ensures 28 <= len <= 31
  {
    var m := n % 12;
    if m == 1 then (if IsLeap(n / 12) then 29 else 28)
    else if m == 3 || m == 5 || m == 8 || m == 10 then 30
    else 31
  }

  /** The day number of the first of month `n`. */
  function MonthFirst(n: int): int
    decreases if n < EPOCH_MONTH then EPOCH_MONTH - n else n - EPOCH_MONTH
  {
    if n == EPOCH_MONTH then 0
    else if n > EPOCH_MONTH then MonthFirst(n - 1) + MonthLength(n - 1)
    else MonthFirst(n + 1) - MonthLength(n)
  }

  lemma NextMonth(n: int)
    ensures MonthFirst(n + 1) == MonthFirst(n) + MonthLength(n)
  {
  }

  /** Months and days may run over in either direction. */
  function MakeDay(year: int, month: int, date: int): int {
    MonthFirst(12 * year + month) + date - 1
  }

  /** The civil date of a day, found by walking from month `n` to the month the day lies in. */
  function CivilFrom(day: int, n: int): CivilDate
    decreases if day < MonthFirst(n) then MonthFirst(n) - day + 31 else day - MonthFirst(n)
  {
    NextMonth(n - 1);
    NextMonth(n);
    if day < MonthFirst(n) then CivilFrom(day, n - 1)
    else if day >= MonthFirst(n + 1) then CivilFrom(day, n + 1)
    else CivilDate(n / 12, n % 12, day - MonthFirst(n) + 1)
  }

  function Civil(day: int): CivilDate {
    CivilFrom(day, EPOCH_MONTH)
  }

  function Year(day: int): int { Civil(day).year }
  function Month(day: int): int { Civil(day).month }
  function Date(day: int): int { Civil(day).date }

  /** 0 is Sunday; day 0 was a Thursday. */
  function WeekDay(day: int): int {
    (day + 4) % 7
  }

  lemma {:induction false} MonthsIncrease(a: int, b: int)
    requires a < b
    ensures MonthFirst(a) + MonthLength(a) <= MonthFirst(b)
    decreases b - a
  {
    NextMonth(a);
    if a + 1 < b {
      MonthsIncrease(a + 1, b);
    }
  }

  ghost predicate InMonth(day: int, n: int) {
    MonthFirst(n) <= day < MonthFirst(n) + MonthLength(n)
  }

  lemma {:induction false} CivilFromIs(day: int, n: int, k: int)
    requires InMonth(day, k)
    ensures CivilFrom(day, n) == CivilDate(k / 12, k % 12, day - MonthFirst(k) + 1)
    decreases if n < k then k - n else n - k
  {
    if n < k {
      MonthsIncrease(n, k);
      NextMonth(n);
      CivilFromIs(day, n + 1, k);
    } else if k < n {
      MonthsIncrease(k, n);
      CivilFromIs(day, n - 1, k);
    } else {
      NextMonth(n);
    }
  }

  /** Each day of month `k` has that civil date. */
  lemma CivilIs(day: int, k: int)
    requires InMonth(day, k)
    ensures Civil(day) == CivilDate(k / 12, k % 12, day - MonthFirst(k) + 1)
  {
    CivilFromIs(day, EPOCH_MONTH, k);
  }

  lemma {:induction false} WalkFinds(day: int, n: int) returns (k: int)
    ensures InMonth(day, k)
    decreases if day < MonthFirst(n) then MonthFirst(n) - day + 31 else day - MonthFirst(n)
  {
    NextMonth(n - 1);
    NextMonth(n);
    if day < MonthFirst(n) {
      k := WalkFinds(day, n - 1);
    } else if day >= MonthFirst(n + 1) {
      k := WalkFinds(day, n + 1);
    } else {
      k := n;
    }
  }

  /** Every day lies in some month. */
  lemma MonthOf(day: int) returns (k: int)
    ensures InMonth(day, k)
    ensures Civil(day) == CivilDate(k / 12, k % 12, day - MonthFirst(k) + 1)
  {
    k := WalkFinds(day, EPOCH_MONTH);
    CivilIs(day, k);
  }

  /** A civil date and its day number determine each other. */
  lemma CivilDateIsUnique(y: int, m: int, d: int)
    requires 0 <= m <= 11 && 1 <= d <= MonthLength(12 * y + m)
    ensures Civil(MakeDay(y, m, d)) == CivilDate(y, m, d)
  {
    CivilIs(MakeDay(y, m, d), 12 * y + m);
  }

  lemma DayHasCivilDate(day: int)
    ensures MakeDay(Year(day), Month(day), Date(day)) == day
    ensures 0 <= Month(day) <= 11 && 1 <= Date(day) <= MonthLength(12 * Year(day) + Month(day))
  {
    var k := MonthOf(day);
    assert 12 * (k / 12) + k % 12 == k;
  }

  // The same day numbers in the closed form of section 21.4.1 of ECMA-262.

  function DayFromYear(y: int): int {
    365 * (y - 1970) + (y - 1969) / 4 - (y - 1901) / 100 + (y - 1601) / 400
  }

  /** Day within the year on which month `m` starts. */
  function MonthStart(m: int, leap: bool): int
    requires 0 <= m <= 11
  {
    [0, 31, 59, 90, 120, 151, 181, 212, 243, 273, 304, 334][m] + if leap && m >= 2 then 1 else 0
  }

  lemma DivUnique(x: int, k: int, q: int, r: int)
    requires k > 0 && 0 <= r < k && x == q * k + r
    ensures x / k == q && x % k == r
  {
    var d := x / k - q;
    assert d * k == r - x % k;
    assert d >= 1 ==> d * k >= k;
    assert d <= -1 ==> d * k <= -k;
  }

  lemma DivStep(x: int, k: int)
    requires k > 0
    ensures (x + 1) / k == x / k + if (x + 1) % k == 0 then 1 else 0
  {
    var q, r := x / k, x % k;
    assert x == q * k + r;
    if r + 1 == k {
      assert x + 1 == (q + 1) * k;
      DivUnique(x + 1, k, q + 1, 0);
    } else {
      assert x + 1 == q * k + (r + 1);
      DivUnique(x + 1, k, q, r + 1);
    }
  }

  /** Shifting by whole multiples of `k` counts the same multiples. */
  lemma MultipleStep(y: int, k: int, c: int)
    requires k > 0
    ensures (y - c * k) / k == (y - 1 - c * k) / k + One(y % k == 0)
  {
    DivStep(y - 1 - c * k, k);
    assert y == (y / k) * k + y % k;
    assert y - c * k == (y / k - c) * k + y % k;
    DivUnique(y - c * k, k, y / k - c, y % k);
  }

  lemma MultiplesNest(y: int)
    ensures y % 400 == 0 ==> y % 100 == 0
    ensures y % 100 == 0 ==> y % 4 == 0
  {
    if y % 400 == 0 {
      DivUnique(y, 100, 4 * (y / 400), 0);
    }
    if y % 100 == 0 {
      DivUnique(y, 4, 25 * (y / 100), 0);
    }
  }

  function One(b: bool): int {
    if b then 1 else 0
  }

  lemma LeapCount(y: int)
    ensures One(y % 4 == 0) - One(y % 100 == 0) + One(y % 400 == 0) == One(IsLeap(y))
  {
    MultiplesNest(y);
  }

  lemma NextYear(y: int)
    ensures DayFromYear(y + 1) == DayFromYear(y) + 365 + One(IsLeap(y))
  {
    MultipleStep(y, 4, 492);
    MultipleStep(y, 100, 19);
    MultipleStep(y, 400, 4);
    LeapCount(y);
  }

  /** The closed form of the first of month `n`. */
  function EcmaFirst(n: int): int {
    DayFromYear(n / 12) + MonthStart(n % 12, IsLeap(n / 12))
  }

  lemma MonthStartStep(m: int, leap: bool, n: int)
    requires 0 <= m <= 11 && m == n % 12 && leap == IsLeap(n / 12)
    ensures m < 11 ==> MonthStart(m + 1, leap) == MonthStart(m, leap) + MonthLength(n)
    ensures m == 11 ==> MonthStart(m, leap) + MonthLength(n) == 365 + One(leap)
  {
  }

  lemma EcmaStep(n: int)
    ensures EcmaFirst(n + 1) == EcmaFirst(n) + MonthLength(n)
  {
    MonthStartStep(n % 12, IsLeap(n / 12), n);
    if n % 12 == 11 {
      assert (n + 1) / 12 == n / 12 + 1 && (n + 1) % 12 == 0;
      NextYear(n / 12);
    } else {
      assert (n + 1) / 12 == n / 12 && (n + 1) % 12 == n % 12 + 1;
    }
  }

  ghost function Gap(n: int): int {
    MonthFirst(n) - EcmaFirst(n)
  }

  lemma GapStays(n: int)
    ensures Gap(n + 1) == Gap(n)
  {
    NextMonth(n);
    EcmaStep(n);
  }

  lemma {:induction false} GapIsConstant(n: int, k: nat)
    ensures Gap(n + k) == Gap(n)
  {
    if k > 0 {
      GapIsConstant(n, k - 1);
      GapStays(n + k - 1);
    }
  }

  lemma MonthFirstIsEcma(n: int)
    ensures MonthFirst(n) == EcmaFirst(n)
  {
    if n >= EPOCH_MONTH {
      GapIsConstant(EPOCH_MONTH, n - EPOCH_MONTH);
    } else {
      GapIsConstant(n, EPOCH_MONTH - n);
    }
    assert Gap(EPOCH_MONTH) == 0;
  }

  /** MakeDay of section 21.4.1.28: carry the month into the year, then count days. */
  lemma MakeDayIsEcma(year: int, month: int, date: int)
    ensures var y, m := year + month / 12, month % 12;
      MakeDay(year, month, date) == DayFromYear(y) + MonthStart(m, IsLeap(y)) + date - 1
  {
    var n := 12 * year + month;
    assert n / 12 == year + month / 12 && n % 12 == month % 12;
    MonthFirstIsEcma(n);
  }
}
