/** The dates of a month, "YYYY-MM". */
module Months {
  import opened Decimals
  import opened Gregorian
  import opened DateKeys

  predicate IsMonth(month: string) {
    |month| == 7 && month[4] == '-' && Digits(month[..4]) && Digits(month[5..]) && 1 <= Value(month[5..]) <= 12
  }

  function YearOf(month: string): (y: nat)
    requires IsMonth(month)
    ensures y <= 9999
  {
    ReadPads(month[..4]);
    Powers();
    Value(month[..4])
  }

  function MonthOf(month: string): (m: nat)
    requires IsMonth(month)
    ensures 1 <= m <= 12
  {
    Value(month[5..])
  }

  /** The months are those of the dates: a key is one exactly when its first day is a date, from the year 100 on. */
  lemma MonthsAre(month: string)
    ensures IsValidDateKey(month + "-01") <==> IsMonth(month) && YearOf(month) >= 100
  {
    hide CivilOf;
    var k := month + "-01";
    ValidKeysAre(k);
    if |month| == 7 {
      assert k[..4] == month[..4] && k[5..7] == month[5..] && k[8..] == "01" && k[4] == month[4] && k[7] == '-';
      assert "01"[..1] == "0" && "0"[..0] == "";
      assert Value("0") == 0 && Value("01") == 1;
    }
  }

  /** The `d`th date of a month. */
  function DateOf(month: string, d: nat): string { month + "-" + Pad(d, 2) }

  /** Every date of a month, counted off by the date of day 0 of the next month. */
  function MonthDates(month: string): (dates: seq<string>)
    requires IsMonth(month)
  {
    seq(CivilOf(UtcDay(YearOf(month), MonthOf(month), 0)).d, i requires i >= 0 => DateOf(month, i + 1))
  }

  lemma DateOfReads(month: string, d: nat)
    requires IsMonth(month) && d <= 99
    ensures DateOf(month, d) == KeyText(YearOf(month), MonthOf(month), d)
    ensures IsShaped(DateOf(month, d)) && Parsed(DateOf(month, d)) == Civil(YearOf(month), MonthOf(month), d)
  {
    ReadPads(month[..4]);
    ReadPads(month[5..]);
    assert month == month[..4] + "-" + month[5..];
    TextReads(YearOf(month), MonthOf(month), d);
  }

  /** A month of four-digit years has its dates 1 to the last. */
  lemma MonthDatesAre(month: string)
    requires IsMonth(month) && YearOf(month) >= 100
    ensures |MonthDates(month)| == DaysInMonth(YearOf(month), MonthOf(month))
  {
    hide CivilOf;
    hide IsLeap;
    hide MakeDay;
    LastOfMonth(YearOf(month), MonthOf(month));
  }

  // ---- walking the month ----

  lemma DayAfter(month: string, d: nat)
    requires IsMonth(month) && YearOf(month) >= 100 && 1 <= d <= DaysInMonth(YearOf(month), MonthOf(month))
    ensures IsShaped(DateOf(month, d))
    ensures IsDate(Civil(YearOf(month), MonthOf(month), d))
    ensures AddDaysToKey(DateOf(month, d), 1) == Text(NextDate(Civil(YearOf(month), MonthOf(month), d)))
  {
    hide CivilOf;
    hide AddDaysToKey;
    hide IsLeap;
    hide UtcDay;
    hide DayNumber;
    hide NextDate;
    hide IsMonth;
    hide DateOf;
    hide Parsed;
    hide Text;
    hide IsValidDateKey;
    hide DaysInMonth;
    var k := DateOf(month, d);
    DateOfReads(month, d);
    RealDateIsValid(k);
    AddDaysIs(k, 1);
    NextDateIsNext(Parsed(k));
  }

  /** Within the month the day after is the next date of the month. */
  lemma WithinMonth(month: string, d: nat)
    requires IsMonth(month) && YearOf(month) >= 1000 && 1 <= d < DaysInMonth(YearOf(month), MonthOf(month))
    ensures IsShaped(DateOf(month, d)) && AddDaysToKey(DateOf(month, d), 1) == DateOf(month, d + 1)
  {
    hide AddDaysToKey;
    hide IsMonth;
    hide DateOf;
    hide IsLeap;
    DayAfter(month, d);
    FourDigitText(Civil(YearOf(month), MonthOf(month), d + 1));
    DateOfReads(month, d + 1);
  }

  /** Text that starts with a month and has the shape of a key is a date of that month. */
  lemma StartsWithMonth(month: string, k: string)
    requires IsMonth(month) && IsShaped(k) && month <= k
    ensures Parsed(k).y == YearOf(month) && Parsed(k).m == MonthOf(month)
  {
    assert k[..7] == month;
    assert k[..4] == month[..4] && k[5..7] == month[5..];
  }

  lemma FiveDigitYear()
    ensures Decimal(10000)[4] == '0' && |Decimal(10000)| == 5
  {
    FourDigits(1000);
    assert Decimal(10000) == Decimal(1000) + [DigitOf(0)];
  }

  /** The day after the last of a month is not of that month. */
  lemma MonthEnds(month: string, d: nat)
    requires IsMonth(month) && YearOf(month) >= 1000 && d == DaysInMonth(YearOf(month), MonthOf(month))
    ensures IsShaped(DateOf(month, d)) && !(month <= AddDaysToKey(DateOf(month, d), 1))
  {
    hide AddDaysToKey;
    hide IsLeap;
    DayAfter(month, d);
    var next := NextDate(Civil(YearOf(month), MonthOf(month), d));
    AnotherMonth(month, next);
  }

  lemma AnotherMonth(month: string, next: Civil)
    requires IsMonth(month) && IsDate(next) && 1000 <= next.y <= 10000
    requires next.y != YearOf(month) || next.m != MonthOf(month)
    ensures !(month <= Text(next))
  {
    hide IsLeap;
    if next.y == 10000 {
      FiveDigitYear();
      assert Text(next)[4] == '0' && month[4] == '-';
    } else {
      FourDigitText(next);
      DayAtMost31(next);
      TextReads(next.y, next.m, next.d);
      if month <= Text(next) {
        StartsWithMonth(month, Text(next));
        assert false;
      }
    }
  }

  lemma EarlyYearStaysPositive(y: int, m: int)
    requires 0 <= y && 1 <= m <= 12
    ensures CivilOf(UtcDay(y, m - 1, 2)).y > 0
  {
    hide CivilOf;
    hide UtcDay;
    hide IsLeap;
    if y <= 99 {
      TwoDigitYearMoves(y, m - 1, 2);
    } else {
      UtcDayOfDate(Civil(y, m, 1), 1);
      NextDateIsNext(Civil(y, m, 1));
    }
  }

  /** Before the year 1000 the first step already leaves the month: the year is written without its zeros,
      and years 0 to 99 are taken for 1900 to 1999. */
  lemma EarlyMonthStops(month: string)
    requires IsMonth(month) && YearOf(month) < 1000
    ensures IsShaped(DateOf(month, 1)) && !(month <= AddDaysToKey(DateOf(month, 1), 1))
  {
    hide CivilOf;
    hide UtcDay;
    hide DateOf;
    hide IsLeap;
    var y, m := YearOf(month), MonthOf(month);
    DateOfReads(month, 1);
    EarlyYearStaysPositive(y, m);
    var next := CivilOf(UtcDay(y, m - 1, 2));
    ZeroFirst(month);
    assert Text(next)[0] == Decimal(next.y)[0] != '0';
  }

  lemma ZeroFirst(month: string)
    requires IsMonth(month) && YearOf(month) < 1000
    ensures month[0] == '0'
  {
    ReadPads(month[..4]);
    Powers();
    assert Power10(3) == 10 * Power10(2);
    LeadingZero(YearOf(month), 4);
  }

  /** How many dates the walk lists. */
  function WalkLength(month: string): (n: nat)
    requires IsMonth(month)
    ensures n > 0
  {
    if YearOf(month) >= 1000 then DaysInMonth(YearOf(month), MonthOf(month)) else 1
  }

  /** One step of the walk: the month's next date, or text that does not start with the month. */
  lemma WalkStep(month: string, d: nat)
    requires IsMonth(month) && 1 <= d <= WalkLength(month)
    ensures IsReadable(DateOf(month, d))
    ensures if d < WalkLength(month) then AddDaysToKey(DateOf(month, d), 1) == DateOf(month, d + 1)
            else !(month <= AddDaysToKey(DateOf(month, d), 1))
  {
    hide AddDaysToKey;
    hide DateOf;
    hide IsMonth;
    hide IsDateText;
    if YearOf(month) < 1000 {
      EarlyMonthStops(month);
    } else if d < WalkLength(month) {
      WithinMonth(month, d);
    } else {
      MonthEnds(month, d);
    }
  }

  lemma WalkIsMonth(month: string, out: seq<string>)
    requires IsMonth(month) && |out| == WalkLength(month)
    requires forall i | 0 <= i < |out| :: out[i] == DateOf(month, i + 1)
    ensures YearOf(month) >= 1000 ==> out == MonthDates(month)
    ensures YearOf(month) < 1000 ==> out == [month + "-01"]
  {
    hide CivilOf;
    hide IsMonth;
    hide IsLeap;
    hide UtcDay;
    hide DateOf;
    FirstOf(month);
    if YearOf(month) >= 1000 {
      MonthDatesAre(month);
    }
  }

  lemma StartsWith(month: string, d: nat)
    ensures month <= DateOf(month, d)
  {
  }

  /** Walking a month day by day, until the text no longer starts with the month. For four-digit years that
      lists exactly the closed form; before the year 1000 it stops after the first date. */
  method DatesOfMonth(month: string) returns (out: seq<string>)
    requires IsMonth(month)
    ensures YearOf(month) >= 1000 ==> out == MonthDates(month)
    ensures YearOf(month) < 1000 ==> out == [month + "-01"]
  {
    hide AddDaysToKey;
    hide WalkLength;
    hide DateOf;
    hide MonthDates;
    hide IsReadable;
    out := [];
    var d := month + "-01";
    ghost var days := WalkLength(month);
    FirstOf(month);
    while month <= d
      invariant |out| <= days
      invariant if |out| < days then d == DateOf(month, |out| + 1) else !(month <= d)
      invariant forall i | 0 <= i < |out| :: out[i] == DateOf(month, i + 1)
      decreases days - |out|
    {
      WalkStep(month, |out| + 1);
      out := out + [d];
      d := AddDaysToKey(d, 1);
    }
    StartsWith(month, |out| + 1);
    WalkIsMonth(month, out);
  }

  lemma FirstOf(month: string)
    ensures DateOf(month, 1) == month + "-01"
  {
    assert Pad(1, 2) == Pad(0, 1) + [DigitOf(1)] && Pad(0, 1) == Pad(0, 0) + [DigitOf(0)];
  }
}
