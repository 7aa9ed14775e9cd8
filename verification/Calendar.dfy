/** The month grid of the date picker and its date strings. */
module Calendar {
  import opened Prelude
  import opened Gregorian

  datatype CalendarDay = CalendarDay(date: string, inMonth: bool)
  datatype View = View(year: int, month: int)

  /** The `Date` constructor reads years 0 to 99 as 1900 to 1999. */
  function JsYear(y: int): int {
    if 0 <= y <= 99 then 1900 + y else y
  }

  /** `new Date(year, month, day)` */
  function NewDate(year: int, month: int, day: int): int {
    MakeDay(JsYear(year), month, day)
  }

  /** `setDate`: same year and month, day of month `date`, which may run over. */
  function SetDate(day: int, date: int): int {
    MakeDay(Year(day), Month(day), date)
  }

  lemma SetDateShifts(day: int, k: int)
    ensures SetDate(day, Date(day) + k) == day + k
  {
    DayHasCivilDate(day);
  }

  // Date strings

  function DigitChar(n: nat): char
    requires n < 10
  {
    '0' + n as char
  }

  function Digits(n: nat): string {
    if n < 10 then [DigitChar(n)] else Digits(n / 10) + [DigitChar(n % 10)]
  }

  function Decimal(n: int): string {
    if n < 0 then "-" + Digits(-n) else Digits(n)
  }

  function PadStart2(s: string): string {
    if |s| == 0 then "00" else if |s| == 1 then "0" + s else s
  }

  function Format(year: int, month: int, date: int): string {
    Decimal(year) + "-" + (PadStart2(Decimal(month + 1)) + "-" + PadStart2(Decimal(date)))
  }

  function ToLocalDateInputValue(day: int): string {
    Format(Year(day), Month(day), Date(day))
  }

  function SplitDash(s: string): (parts: seq<string>)
    ensures |parts| > 0
  {
    if s == "" then [""]
    else
      var rest := SplitDash(s[1..]);
      if s[0] == '-' then [""] + rest else [[s[0]] + rest[0]] + rest[1..]
  }

  predicate AllDigits(s: string) {
    forall i :: 0 <= i < |s| ==> '0' <= s[i] <= '9'
  }

  function Value(s: string): nat
    requires AllDigits(s)
  {
    if s == "" then 0 else 10 * Value(s[..|s| - 1]) + (s[|s| - 1] as int - '0' as int)
  }

  /** `Number(s)` on decimal digits, the empty string being 0; None stands for NaN. */
  function Number(s: string): Option<nat> {
    if AllDigits(s) then Some(Value(s)) else None
  }

  function DateOf(year: Option<nat>, month: Option<nat>, day: Option<nat>): Option<int> {
    if year.None? || month.None? || day.None? then None
    else Some(NewDate(year.value, month.value - 1, day.value))
  }

  /** The date the first three parts denote; None stands for an invalid date. */
  function DateOfParts(parts: seq<string>): Option<int> {
    if |parts| < 3 then None else DateOf(Number(parts[0]), Number(parts[1]), Number(parts[2]))
  }

  function ParseDateInput(value: string): Option<int> {
    DateOfParts(SplitDash(value))
  }

  lemma {:induction false} SplitAtDash(a: string, rest: string)
    requires AllDigits(a)
    ensures SplitDash(a + "-" + rest) == [a] + SplitDash(rest)
  {
    var s := a + "-" + rest;
    if a == "" {
      assert s[1..] == rest;
    } else {
      SplitAtDash(a[1..], rest);
      assert s[1..] == a[1..] + "-" + rest;
      assert [a[0]] + a[1..] == a;
    }
  }

  lemma {:induction false} NoDashNoSplit(a: string)
    requires AllDigits(a)
    ensures SplitDash(a) == [a]
  {
    if a != "" {
      NoDashNoSplit(a[1..]);
      assert [a[0]] + a[1..] == a;
    }
  }

  lemma {:induction false} DigitsDenote(n: nat)
    ensures AllDigits(Digits(n)) && Value(Digits(n)) == n
    ensures Digits(n) != "" && (n > 0 ==> Digits(n)[0] != '0')
  {
    if n >= 10 {
      DigitsDenote(n / 10);
      assert Digits(n)[..|Digits(n)| - 1] == Digits(n / 10);
    }
  }

  lemma {:induction false} LeadingZero(s: string)
    requires AllDigits(s)
    ensures AllDigits("0" + s) && Value("0" + s) == Value(s)
  {
    if s == "" {
      assert Value("0") == 10 * Value("0"[..0]);
    } else {
      LeadingZero(s[..|s| - 1]);
      assert ("0" + s)[..|s|] == "0" + s[..|s| - 1];
    }
  }

  lemma PaddedDenotes(n: nat)
    ensures var s := PadStart2(Decimal(n)); AllDigits(s) && Value(s) == n
  {
    DigitsDenote(n);
    LeadingZero(Digits(n));
  }

  /** Two digits, tens first. */
  predicate IsTwoDigits(s: string, n: int) {
    |s| == 2 && AllDigits(s) && n == 10 * (s[0] as int - '0' as int) + (s[1] as int - '0' as int)
  }

  lemma PaddedIsTwoDigits(n: nat)
    requires n < 100
    ensures IsTwoDigits(PadStart2(Decimal(n)), n)
  {
    if n >= 10 {
      assert Digits(n / 10) == [DigitChar(n / 10)];
    }
  }

  /** A date string is the year without leading zeros, then two digits each for month and day of month. */
  lemma DateStringIs(day: int) returns (year: string, month: string, date: string)
    ensures ToLocalDateInputValue(day) == year + "-" + month + "-" + date
    ensures IsTwoDigits(month, Month(day) + 1) && IsTwoDigits(date, Date(day))
    ensures var digits := if Year(day) < 0 && year != "" then year[1..] else year;
      && year == (if Year(day) < 0 then "-" + digits else digits)
      && AllDigits(digits) && Value(digits) == (if Year(day) < 0 then -Year(day) else Year(day))
      && digits != "" && (digits[0] == '0' ==> Year(day) == 0)
  {
    DayHasCivilDate(day);
    year, month, date := Decimal(Year(day)), PadStart2(Decimal(Month(day) + 1)), PadStart2(Decimal(Date(day)));
    PaddedIsTwoDigits(Month(day) + 1);
    PaddedIsTwoDigits(Date(day));
    DigitsDenote(if Year(day) < 0 then -Year(day) else Year(day));
    assert year + "-" + (month + "-" + date) == year + "-" + month + "-" + date;
    if Year(day) < 0 {
      assert ("-" + Digits(-Year(day)))[1..] == Digits(-Year(day));
    }
  }

  lemma SplitThree(year: string, month: string, date: string)
    requires AllDigits(year) && AllDigits(month) && AllDigits(date)
    ensures SplitDash(year + "-" + (month + "-" + date)) == [year, month, date]
  {
    var tail := month + "-" + date;
    SplitAtDash(year, tail);
    assert SplitDash(tail) == [month, date] by {
      SplitAtDash(month, date);
      NoDashNoSplit(date);
    }
  }

  /** The first part is what stands before the first dash. */
  lemma {:induction false} SplitFirst(s: string) returns (tail: string)
    ensures var parts := SplitDash(s);
      && s == parts[0] + tail && '-' !in parts[0]
      && (if tail == "" then parts == [parts[0]] else tail[0] == '-' && parts[1..] == SplitDash(tail[1..]))
  {
    if s == "" {
      tail := "";
    } else if s[0] == '-' {
      tail := s;
    } else {
      tail := SplitFirst(s[1..]);
      assert s == [s[0]] + s[1..];
    }
  }

  lemma FirstPart(a: string, tail: string)
    requires AllDigits(a) && (tail == "" || tail[0] == '-')
    ensures SplitDash(a + tail)[0] == a
  {
    if tail == "" {
      NoDashNoSplit(a);
      assert a + tail == a;
    } else {
      SplitAtDash(a, tail[1..]);
      assert a + tail == a + "-" + tail[1..];
    }
  }

  /** Three numbers with dashes between them, and anything behind a further dash. */
  ghost predicate IsDateText(value: string, year: string, month: string, date: string, tail: string) {
    && AllDigits(year) && AllDigits(month) && AllDigits(date) && (tail == "" || tail[0] == '-')
    && value == year + "-" + (month + "-" + (date + tail))
  }

  lemma FirstThree(value: string, rest: string, last: string, year: string, month: string, date: string)
    requires SplitDash(value) == [year] + SplitDash(rest) && SplitDash(rest) == [month] + SplitDash(last)
    requires SplitDash(last)[0] == date
    ensures var parts := SplitDash(value); |parts| >= 3 && parts[0] == year && parts[1] == month && parts[2] == date
  {
  }

  lemma DateTextSplits(value: string, year: string, month: string, date: string, tail: string)
    requires IsDateText(value, year, month, date, tail)
    ensures var parts := SplitDash(value); |parts| >= 3 && parts[0] == year && parts[1] == month && parts[2] == date
  {
    var last := date + tail;
    FirstPart(date, tail);
    var rest := month + "-" + last;
    SplitAtDash(month, last);
    SplitAtDash(year, rest);
    FirstThree(value, rest, last, year, month, date);
  }

  /** Such a text denotes the day it names, the years 0 to 99 being read as 1900 to 1999 and all else running over. */
  lemma DateTextDenotes(value: string, year: string, month: string, date: string, tail: string)
    requires IsDateText(value, year, month, date, tail)
    ensures ParseDateInput(value) ==
      Some(MakeDay(if Value(year) < 100 then 1900 + Value(year) else Value(year), Value(month) - 1, Value(date)))
  {
    DateTextSplits(value, year, month, date, tail);
    ReadThree(SplitDash(value), Some(Value(year)), Some(Value(month)), Some(Value(date)));
  }

  /** `s` is the part before its first dash, and then the rest behind that dash. */
  lemma CutAtDash(s: string) returns (rest: string)
    requires |SplitDash(s)| > 1
    ensures s == SplitDash(s)[0] + "-" + rest && SplitDash(rest) == SplitDash(s)[1..]
  {
    var tail := SplitFirst(s);
    rest := tail[1..];
    assert tail == "-" + rest;
  }

  /** Every text that is read as a date is one of these. */
  lemma OnlyDateTextsParse(value: string) returns (year: string, month: string, date: string, tail: string)
    ensures ParseDateInput(value).Some? ==> IsDateText(value, year, month, date, tail)
  {
    year, month, date, tail := "", "", "", "";
    if ParseDateInput(value).Some? {
      var rest := CutAtDash(value);
      var last := CutAtDash(rest);
      tail := SplitFirst(last);
      year, month, date := SplitDash(value)[0], SplitDash(rest)[0], SplitDash(last)[0];
    }
  }

  lemma SplitLeadingDash(s: string)
    ensures SplitDash("-" + s) == [""] + SplitDash(s)
  {
    assert ("-" + s)[1..] == s;
  }

  lemma Regroup(year: string, rest: string)
    ensures "-" + year + "-" + rest == "-" + (year + "-" + rest)
  {
  }

  /** The numbers a formatted date splits into; a negative year leaves an empty part in front. */
  lemma SplitFormat(y: int, m: nat, d: nat) returns (year: string, month: string, date: string)
    ensures Number(year) == Some(if y < 0 then -y else y) && Number(month) == Some(m + 1) && Number(date) == Some(d)
    ensures SplitDash(Format(y, m, d)) == if y < 0 then ["", year, month, date] else [year, month, date]
  {
    year, month, date := Digits(if y < 0 then -y else y), PadStart2(Decimal(m + 1)), PadStart2(Decimal(d));
    DigitsDenote(if y < 0 then -y else y);
    PaddedDenotes(m + 1);
    PaddedDenotes(d);
    SplitThree(year, month, date);
    SplitLeadingDash(year + "-" + (month + "-" + date));
    Regroup(year, month + "-" + date);
  }

  lemma ReadThree(parts: seq<string>, year: Option<nat>, month: Option<nat>, date: Option<nat>)
    requires |parts| >= 3 && Number(parts[0]) == year && Number(parts[1]) == month && Number(parts[2]) == date
    ensures DateOfParts(parts) == DateOf(year, month, date)
  {
  }

  lemma ParsedText(y: int, m: nat, d: nat)
    ensures ParseDateInput(Format(y, m, d)) == Some(if y < 0 then NewDate(0, -y - 1, m + 1) else NewDate(y, m, d))
  {
    var year, month, date := SplitFormat(y, m, d);
    if y < 0 {
      ReadThree(["", year, month, date], Some(0), Some(-y), Some(m + 1));
    } else {
      ReadThree([year, month, date], Some(y), Some(m + 1), Some(d));
    }
  }

  /** What a formatted date parses to. */
  lemma ParsedFormat(day: int)
    ensures ParseDateInput(ToLocalDateInputValue(day)) ==
      Some(if Year(day) < 0 then NewDate(0, -Year(day) - 1, Month(day) + 1)
           else NewDate(Year(day), Month(day), Date(day)))
  {
    DayHasCivilDate(day);
    ParsedText(Year(day), Month(day), Date(day));
  }

  /** Moving the year moves the day. */
  lemma OtherYearOtherDay(n: int, n': int, d: int)
    requires n != n'
    ensures MonthFirst(n) + d != MonthFirst(n') + d
  {
    if n < n' {
      MonthsIncrease(n, n');
    } else {
      MonthsIncrease(n', n);
    }
  }

  /** Reading a day's own year, month and date back gives the day exactly when the year is not 0 to 99. */
  lemma NewDateOfParts(day: int)
    ensures NewDate(Year(day), Month(day), Date(day)) == day <==> !(0 <= Year(day) <= 99)
  {
    DayHasCivilDate(day);
    if 0 <= Year(day) <= 99 {
      OtherYearOtherDay(12 * (1900 + Year(day)) + Month(day), 12 * Year(day) + Month(day), Date(day) - 1);
    }
  }

  lemma NegativeYearIsLost(day: int)
    requires Year(day) < 0
    ensures NewDate(0, -Year(day) - 1, Month(day) + 1) > day
  {
    DayHasCivilDate(day);
    MonthsIncrease(12 * Year(day) + Month(day), 12 * 1900 + (-Year(day) - 1));
  }

  ghost predicate ParsesBack(day: int) {
    ParseDateInput(ToLocalDateInputValue(day)) == Some(day)
  }

  /** A date survives formatting and parsing exactly when its year is 100 or later. */
  lemma ParseOfFormat(day: int)
    ensures ParsesBack(day) <==> Year(day) >= 100
  {
    ParsedFormat(day);
    if Year(day) >= 0 {
      NewDateOfParts(day);
    } else {
      NegativeYearIsLost(day);
    }
  }

  lemma FormatDetermines(y: int, m: nat, d: nat, y': int, m': nat, d': nat)
    requires Format(y, m, d) == Format(y', m', d')
    ensures (y, m, d) == (y', m', d')
  {
    var year, month, date := SplitFormat(y, m, d);
    var year', month', date' := SplitFormat(y', m', d');
    assert y < 0 <==> y' < 0;
  }

  /** Different days have different strings. */
  lemma FormatIsInjective(a: int, b: int)
    requires ToLocalDateInputValue(a) == ToLocalDateInputValue(b)
    ensures a == b
  {
    DayHasCivilDate(a);
    DayHasCivilDate(b);
    FormatDetermines(Year(a), Month(a), Date(a), Year(b), Month(b), Date(b));
  }

  lemma SameString(a: int, b: int)
    ensures ToLocalDateInputValue(a) == ToLocalDateInputValue(b) <==> a == b
  {
    if ToLocalDateInputValue(a) == ToLocalDateInputValue(b) {
      FormatIsInjective(a, b);
    }
  }

  // Moving by months and by days

  function ShiftMonth(v: View, delta: int): View {
    var date := NewDate(v.year, v.month + delta, 1);
    View(Year(date), Month(date))
  }

  /** The months a view's year and month count from January of year 0. */
  function MonthIndex(v: View): int {
    12 * JsYear(v.year) + v.month
  }

  lemma ShiftMonthAdds(v: View, delta: int)
    ensures var w := ShiftMonth(v, delta); 0 <= w.month <= 11 && 12 * w.year + w.month == MonthIndex(v) + delta
  {
    var n := MonthIndex(v) + delta;
    CivilIs(MonthFirst(n), n);
  }

  /** Two shifts add up exactly when the first does not stop in the years 0 to 99. */
  lemma ShiftsAddUp(v: View, a: int, b: int)
    ensures ShiftMonth(ShiftMonth(v, a), b) == ShiftMonth(v, a + b) <==> !(0 <= ShiftMonth(v, a).year <= 99)
  {
    ShiftMonthAdds(v, a);
    ShiftMonthAdds(ShiftMonth(v, a), b);
    ShiftMonthAdds(v, a + b);
  }

  function AddDaysToDateInput(days: int, from: int): string {
    var date := NewDate(Year(from), Month(from), Date(from));
    ToLocalDateInputValue(SetDate(date, Date(date) + days))
  }

  lemma AddDaysIs(days: int, from: int)
    ensures AddDaysToDateInput(days, from) == ToLocalDateInputValue(NewDate(Year(from), Month(from), Date(from)) + days)
  {
    SetDateShifts(NewDate(Year(from), Month(from), Date(from)), days);
  }

  /** Days are added to the given date exactly when its year is not 0 to 99. */
  lemma AddDaysAdds(days: int, from: int)
    ensures AddDaysToDateInput(days, from) == ToLocalDateInputValue(from + days) <==> !(0 <= Year(from) <= 99)
  {
    var date := NewDate(Year(from), Month(from), Date(from));
    AddDaysIs(days, from);
    NewDateOfParts(from);
    SameString(date + days, from + days);
  }

  // The grid

  function FirstOfMonth(v: View): int {
    NewDate(v.year, v.month, 1)
  }

  function GridStart(v: View): int {
    NewDate(v.year, v.month, 1 - (WeekDay(FirstOfMonth(v)) + 6) % 7)
  }

  /** The grid starts on the Monday on or before the first of the month. */
  lemma GridStartsOnMonday(v: View)
    ensures WeekDay(GridStart(v)) == 1
    ensures FirstOfMonth(v) - 6 <= GridStart(v) <= FirstOfMonth(v)
  {
  }

  lemma NearMonth(n: int, day: int) returns (k: int)
    requires MonthFirst(n) - 28 <= day < MonthFirst(n) + MonthLength(n) + 28
    ensures InMonth(day, k) && n - 1 <= k <= n + 1 && (k == n <==> InMonth(day, n))
  {
    NextMonth(n - 1);
    NextMonth(n);
    k := if day < MonthFirst(n) then n - 1 else if InMonth(day, n) then n else n + 1;
  }

  /** Around month `n`, a date shows the month's number exactly when it lies in the month. */
  lemma MonthNumberMarksBlock(n: int, day: int)
    requires MonthFirst(n) - 28 <= day < MonthFirst(n) + MonthLength(n) + 28
    ensures Month(day) == n % 12 <==> InMonth(day, n)
  {
    var k := NearMonth(n, day);
    CivilIs(day, k);
    assert k % 12 == n % 12 <==> k == n;
  }

  /** The cell shows the day, and is marked exactly when the day lies in month `n` and a month number was asked for. */
  ghost predicate Shows(cell: CalendarDay, day: int, n: int, viewMonth: int) {
    && cell.date == ToLocalDateInputValue(day)
    && (cell.inMonth <==> InMonth(day, n) && 0 <= viewMonth <= 11)
  }

  /**
   `days` are 42 consecutive dates from a Monday on; the days of month `n` are one
   block of them, and `inMonth` marks that block, provided the month asked
   for is a month number at all.
   */
  ghost predicate IsMonthGrid(days: seq<CalendarDay>, start: int, n: int, viewMonth: int) {
    && |days| == 42
    && WeekDay(start) == 1
    && start <= MonthFirst(n) && MonthFirst(n) + MonthLength(n) <= start + 42
    && (forall i :: 0 <= i < 42 ==> Shows(days[i], start + i, n, viewMonth))
  }

  function Cell(date: int, viewMonth: int): CalendarDay {
    CalendarDay(ToLocalDateInputValue(date), Month(date) == viewMonth)
  }

  lemma MarkIsRight(n: int, viewMonth: int, day: int)
    requires n % 12 == viewMonth % 12
    requires MonthFirst(n) - 28 <= day < MonthFirst(n) + MonthLength(n) + 28
    ensures Month(day) == viewMonth <==> InMonth(day, n) && 0 <= viewMonth <= 11
  {
    MonthNumberMarksBlock(n, day);
    var k := MonthOf(day);
    assert 0 <= Month(day) <= 11;
    assert 0 <= viewMonth <= 11 <==> n % 12 == viewMonth;
  }

  lemma CellShows(n: int, viewMonth: int, day: int)
    requires n % 12 == viewMonth % 12
    requires MonthFirst(n) - 28 <= day < MonthFirst(n) + MonthLength(n) + 28
    ensures Shows(Cell(day, viewMonth), day, n, viewMonth)
  {
    MarkIsRight(n, viewMonth, day);
  }

  lemma CellsMakeGrid(days: seq<CalendarDay>, start: int, n: int, viewMonth: int)
    requires n % 12 == viewMonth % 12
    requires WeekDay(start) == 1 && start <= MonthFirst(n) <= start + 6
    requires |days| == 42 && forall i :: 0 <= i < 42 ==> days[i] == Cell(start + i, viewMonth)
    ensures IsMonthGrid(days, start, n, viewMonth)
  {
    forall i | 0 <= i < 42
      ensures Shows(days[i], start + i, n, viewMonth)
    {
      assert days[i] == Cell(start + i, viewMonth);
      CellShows(n, viewMonth, start + i);
    }
  }

  lemma GridIsRight(days: seq<CalendarDay>, v: View)
    requires |days| == 42 && forall i :: 0 <= i < 42 ==> days[i] == Cell(GridStart(v) + i, v.month)
    ensures IsMonthGrid(days, GridStart(v), MonthIndex(v), v.month)
  {
    GridStartsOnMonday(v);
    CellsMakeGrid(days, GridStart(v), MonthIndex(v), v.month);
  }

  lemma January100(n: int)
    requires n == 1200
    ensures MonthFirst(n) == -683003 && WeekDay(MonthFirst(n)) == 5
  {
    MonthFirstIsEcma(n);
    EcmaJanuary100();
  }

  lemma EcmaJanuary100()
    ensures EcmaFirst(1200) == -683003
  {
  }

  lemma YearFrom100(day: int, n: int)
    requires n == 1200
    ensures Year(day) >= 100 <==> day >= MonthFirst(n)
  {
    var k := MonthOf(day);
    if k < n {
      MonthsIncrease(k, n);
    } else if k > n {
      MonthsIncrease(n, k);
    }
  }

  ghost predicate CellsParseBack(v: View) {
    forall day :: GridStart(v) <= day < GridStart(v) + 42 ==> ParsesBack(day)
  }

  lemma ParsesBackFrom(start: int, n: int)
    requires n == 1200
    ensures (forall day :: start <= day < start + 42 ==> ParsesBack(day)) <==> start >= MonthFirst(n)
  {
    forall day | start <= day < start + 42
      ensures ParsesBack(day) <==> day >= MonthFirst(n)
    {
      ParseOfFormat(day);
      YearFrom100(day, n);
    }
    if forall day :: start <= day < start + 42 ==> ParsesBack(day) {
      assert ParsesBack(start);
    }
  }

  lemma GridStartsFrom100(v: View, n: int)
    requires n == 1200
    ensures GridStart(v) >= MonthFirst(n) <==> MonthIndex(v) > n
  {
    GridStartsOnMonday(v);
    January100(n);
    if MonthIndex(v) < n {
      MonthsIncrease(MonthIndex(v), n);
    } else if MonthIndex(v) > n {
      MonthsIncrease(n, MonthIndex(v));
    }
  }

  /**
   Every cell of the grid parses back to its own date exactly when the viewed
   month comes after January of year 100. That month itself starts on a Friday,
   so its grid begins in December 99.
   */
  lemma GridParsesBack(v: View)
    ensures CellsParseBack(v) <==> MonthIndex(v) > 1200
  {
    var n :| n == 1200;
    ParsesBackFrom(GridStart(v), n);
    GridStartsFrom100(v, n);
  }

  /** For the views the picker reaches, that leaves out negative years and January 100. */
  lemma ViewsThatParseBack(v: View)
    requires 0 <= v.month <= 11
    ensures CellsParseBack(v) <==> v.year >= 0 && v != View(100, 0)
  {
    GridParsesBack(v);
  }

  lemma StartOfJanuary100(v: View)
    requires v == View(100, 0)
    ensures Civil(GridStart(v)) == CivilDate(99, 11, 28)
  {
    var n :| n == 1200;
    January100(n);
    assert MonthIndex(v) == n && GridStart(v) == MonthFirst(n) - 4;
    NextMonth(n - 1);
    CivilIs(GridStart(v), n - 1);
  }

  /** The first cell of January 100 reads 99-12-28 and parses as 28 December 1999. */
  lemma JanuaryOf100IsLost(v: View)
    requires v == View(100, 0)
    ensures ToLocalDateInputValue(GridStart(v)) == "99-12-28"
    ensures var back := ParseDateInput(ToLocalDateInputValue(GridStart(v)));
      back.Some? && Civil(back.value) == CivilDate(1999, 11, 28)
  {
    StartOfJanuary100(v);
    var day := GridStart(v);
    LastDecember();
    ParsedFormat(day);
    var y :| y == 1900 + Year(day);
    CivilDateIsUnique(y, 11, 28);
  }

  lemma LastDecember()
    ensures Format(99, 11, 28) == "99-12-28"
  {
    assert Digits(99) == "99" && Digits(12) == "12" && Digits(28) == "28";
  }

  method GetCalendarMonthDays(viewYear: int, viewMonth: int) returns (days: seq<CalendarDay>)
    ensures IsMonthGrid(days, GridStart(View(viewYear, viewMonth)), MonthIndex(View(viewYear, viewMonth)), viewMonth)
  {
    var firstOfMonth := NewDate(viewYear, viewMonth, 1);
    var startOffset := (WeekDay(firstOfMonth) + 6) % 7;
    var gridStart := NewDate(viewYear, viewMonth, 1 - startOffset);
    days := [];
    for index := 0 to 42
      invariant |days| == index
      invariant forall i :: 0 <= i < index ==> days[i] == Cell(gridStart + i, viewMonth)
    {
      var date := SetDate(gridStart, Date(gridStart) + index);
      SetDateShifts(gridStart, index);
      days := days + [Cell(date, viewMonth)];
    }
    GridIsRight(days, View(viewYear, viewMonth));
  }
}
