/** Date keys "YYYY-MM-DD": reading, writing, shifting and comparing them as strings. */
module DateKeys {
  import opened Decimals
  import opened Gregorian
  import TextOrder

  // ---- reading ----

  /** Digits, a dash, two digits, a dash, two digits: what a date of a year that is not negative is written as. */
  predicate IsDateText(k: string) {
    && |k| >= 7 && k[|k| - 6] == '-' && k[|k| - 3] == '-'
    && Digits(k[..|k| - 6]) && Digits(k[|k| - 5..|k| - 3]) && Digits(k[|k| - 2..])
  }

  /** The shape of a key: four digits for the year. */
  predicate IsShaped(k: string) { |k| == 10 && IsDateText(k) }

  function Parsed(k: string): (c: Civil)
    requires IsDateText(k)
    ensures c.y >= 0 && c.m >= 0 && c.d >= 0
  {
    Civil(Value(k[..|k| - 6]), Value(k[|k| - 5..|k| - 3]), Value(k[|k| - 2..]))
  }

  /** The strings the code itself writes: date texts, and those of negative years. */
  predicate IsReadable(k: string) { IsDateText(k) || (k != "" && k[0] == '-' && IsDateText(k[1..])) }

  /** What splitting at the dashes reads. In front of a negative year's dash it reads an empty number, 0, for the
      year; the year is then taken for the month, and the month for the date. */
  function Fields(k: string): Civil
    requires IsReadable(k)
  {
    if IsDateText(k) then Parsed(k) else Civil(0, Parsed(k[1..]).y, Parsed(k[1..]).m)
  }

  /** The day a string is read as. */
  function DayOf(k: string): int
    requires IsReadable(k)
  {
    UtcDay(Fields(k).y, Fields(k).m - 1, Fields(k).d)
  }

  // ---- writing ----

  function KeyText(y: nat, m: nat, d: nat): (k: string)
    ensures IsShaped(k)
  {
    var k := Pad(y, 4) + "-" + Pad(m, 2) + "-" + Pad(d, 2);
    assert k[..4] == Pad(y, 4) && k[5..7] == Pad(m, 2) && k[8..] == Pad(d, 2);
    k
  }

  /** A shaped key is determined by the numbers it reads as. */
  lemma ShapedIsText(k: string)
    requires IsShaped(k)
    ensures Parsed(k).y <= 9999 && Parsed(k).m <= 99 && Parsed(k).d <= 99
    ensures k == KeyText(Parsed(k).y, Parsed(k).m, Parsed(k).d)
  {
    ReadPads(k[..4]);
    ReadPads(k[5..7]);
    ReadPads(k[8..]);
    Powers();
    assert k == k[..4] + [k[4]] + k[5..7] + [k[7]] + k[8..];
  }

  lemma TextReads(y: nat, m: nat, d: nat)
    requires y <= 9999 && m <= 99 && d <= 99
    ensures Parsed(KeyText(y, m, d)) == Civil(y, m, d)
  {
    var k := KeyText(y, m, d);
    assert k[..4] == Pad(y, 4) && k[5..7] == Pad(m, 2) && k[8..] == Pad(d, 2);
    Powers();
    PadReads(y, 4);
    PadReads(m, 2);
    PadReads(d, 2);
  }

  /** How a date is written: the year is not padded. */
  function Text(c: Civil): (k: string)
    requires c.m >= 0 && c.d >= 0
    ensures IsReadable(k)
  {
    var k := Signed(c.y) + "-" + Pad(c.m, 2) + "-" + Pad(c.d, 2);
    Joined(Decimal(if c.y < 0 then -c.y else c.y), Pad(c.m, 2), Pad(c.d, 2));
    assert c.y < 0 ==> k[1..] == Decimal(-c.y) + "-" + Pad(c.m, 2) + "-" + Pad(c.d, 2);
    k
  }

  lemma Joined(y: string, m: string, d: string)
    requires y != "" && Digits(y) && |m| == 2 && Digits(m) && |d| == 2 && Digits(d)
    ensures var k := y + "-" + m + "-" + d;
            IsDateText(k) && Parsed(k) == Civil(Value(y), Value(m), Value(d))
  {
    var k := y + "-" + m + "-" + d;
    assert k[..|k| - 6] == y && k[|k| - 5..|k| - 3] == m && k[|k| - 2..] == d;
  }

  lemma FourDigitText(c: Civil)
    requires 1000 <= c.y <= 9999 && c.m >= 0 && c.d >= 0
    ensures Text(c) == KeyText(c.y, c.m, c.d)
  {
    FourDigits(c.y);
  }

  lemma DayAtMost31(c: Civil)
    requires IsDate(c)
    ensures 1 <= c.m <= 12 && 1 <= c.d <= 31
  {
  }

  lemma PartsRead(y: nat, m: nat, d: nat)
    requires m <= 99 && d <= 99
    ensures var k := Decimal(y) + "-" + Pad(m, 2) + "-" + Pad(d, 2); IsDateText(k) && Parsed(k) == Civil(y, m, d)
  {
    hide IsDateText;
    hide Parsed;
    Powers();
    PadReads(m, 2);
    PadReads(d, 2);
    DecimalReads(y);
    Joined(Decimal(y), Pad(m, 2), Pad(d, 2));
  }

  /** The text of a date reads back as that date, unless its year is negative. */
  lemma TextParses(c: Civil)
    requires 0 <= c.m <= 99 && 0 <= c.d <= 99
    ensures c.y >= 0 ==> IsDateText(Text(c)) && Parsed(Text(c)) == c
    ensures c.y < 0 ==> !IsDateText(Text(c)) && Fields(Text(c)) == Civil(0, -c.y, c.m)
  {
    hide IsDateText;
    hide Parsed;
    hide Fields;
    if c.y < 0 {
      NegativeReads(c);
    } else {
      PartsRead(c.y, c.m, c.d);
    }
  }

  lemma NegativeReads(c: Civil)
    requires c.y < 0 && 0 <= c.m <= 99 && 0 <= c.d <= 99
    ensures !IsDateText(Text(c)) && Fields(Text(c)) == Civil(0, -c.y, c.m)
  {
    hide IsDateText;
    hide Parsed;
    hide Fields;
    var t := Decimal(-c.y) + "-" + Pad(c.m, 2) + "-" + Pad(c.d, 2);
    PartsRead(-c.y, c.m, c.d);
    assert Text(c) == "-" + t;
    SignMovesFields(t);
  }

  lemma SignMovesFields(t: string)
    requires IsDateText(t)
    ensures !IsDateText("-" + t) && IsReadable("-" + t)
    ensures Fields("-" + t) == Civil(0, Parsed(t).y, Parsed(t).m)
  {
    var k := "-" + t;
    assert k[..|k| - 6][0] == '-';
    assert k[1..] == t;
  }

  // ---- what the source's functions do ----

  predicate IsValidDateKey(k: string) {
    IsShaped(k) && CivilOf(UtcDay(Parsed(k).y, Parsed(k).m - 1, Parsed(k).d)) == Parsed(k)
  }

  function AddDaysToKey(k: string, days: int): (r: string)
    requires IsReadable(k)
    ensures IsReadable(r)
  {
    Text(CivilOf(UtcDay(Fields(k).y, Fields(k).m - 1, Fields(k).d + days)))
  }

  /** `getUTCDay` counts from Sunday, and day 0 was a Thursday. */
  function IsoWeekday(n: int): (w: int)
    ensures 1 <= w <= 7
  {
    if (n + 4) % 7 == 0 then 7 else (n + 4) % 7
  }

  function IsoWeekdayOfKey(k: string): (w: int)
    requires IsReadable(k)
    ensures 1 <= w <= 7
  {
    IsoWeekday(DayOf(k))
  }

  lemma AddDaysIs(k: string, days: int)
    requires IsReadable(k)
    ensures AddDaysToKey(k, days) == Text(CivilOf(DayOf(k) + days))
  {
    hide IsReadable;
    hide Fields;
    hide CivilOf;
    hide Text;
    hide IsLeap;
  }

  // ---- valid keys ----

  /** A real date of a year from 100 on is read as itself. */
  lemma RealDateDay(k: string)
    requires IsDateText(k) && Parsed(k).y >= 100 && IsDate(Parsed(k))
    ensures DayOf(k) == DayNumber(Parsed(k)) && CivilOf(DayOf(k)) == Parsed(k)
  {
    hide IsDateText;
    hide Parsed;
    hide UtcDay;
    hide IsLeap;
    UtcDayOfDate(Parsed(k), 0);
    CivilOfIs(DayOf(k), Parsed(k));
  }

  lemma RealDateIsValid(k: string)
    requires IsShaped(k) && Parsed(k).y >= 100 && IsDate(Parsed(k))
    ensures IsValidDateKey(k) && DayOf(k) == DayNumber(Parsed(k))
  {
    hide IsDateText;
    hide Parsed;
    hide IsDate;
    hide CivilOf;
    hide DayNumber;
    hide UtcDay;
    RealDateDay(k);
  }

  lemma ValidIsRealDate(k: string)
    requires IsValidDateKey(k)
    ensures Parsed(k).y >= 100 && IsDate(Parsed(k)) && DayOf(k) == DayNumber(Parsed(k))
    ensures CivilOf(DayOf(k)) == Parsed(k)
  {
    hide CivilOf;
    hide UtcDay;
    hide DayNumber;
    hide IsDateText;
    ShapedIsText(k);
    if Parsed(k).y < 100 {
      TwoDigitYearMoves(Parsed(k).y, Parsed(k).m - 1, Parsed(k).d);
    }
    RealDateDay(k);
  }

  /** Exactly which keys the source accepts: the shape, a real date of the Gregorian calendar, and a year
      from 100 on (earlier years are taken for 1900 to 1999). */
  lemma ValidKeysAre(k: string)
    ensures IsValidDateKey(k) <==> IsShaped(k) && Parsed(k).y >= 100 && IsDate(Parsed(k))
  {
    hide IsDate;
    hide CivilOf;
    if IsValidDateKey(k) {
      ValidIsRealDate(k);
    } else if IsShaped(k) && Parsed(k).y >= 100 && IsDate(Parsed(k)) {
      RealDateIsValid(k);
    }
  }

  // ---- shifting ----

  lemma ReadsBackLater(n: int)
    requires CivilOf(n).y >= 100
    ensures DayOf(Text(CivilOf(n))) == n
  {
    hide CivilOf;
    hide DayOf;
    hide Text;
    hide IsReadable;
    hide IsDateText;
    hide DayNumber;
    hide IsDate;
    var c := CivilOf(n);
    DayAtMost31(c);
    TextParses(c);
    RealDateDay(Text(c));
  }

  lemma ReadsBackElsewhere(n: int)
    requires CivilOf(n).y < 100
    ensures DayOf(Text(CivilOf(n))) > n
  {
    hide CivilOf;
    hide Text;
    hide IsReadable;
    hide IsDateText;
    hide IsDate;
    hide UtcDay;
    hide DayNumber;
    var c := CivilOf(n);
    DayAtMost31(c);
    TextParses(c);
    var f := Fields(Text(c));
    TwoDigitYearMoves(f.y, f.m - 1, f.d);
    EarlierYear(n, DayOf(Text(c)));
  }

  lemma EarlierYear(n: int, p: int)
    requires CivilOf(n).y < CivilOf(p).y
    ensures n < p
  {
    hide CivilOf;
    hide DayNumber;
    BeforeIffEarlier(CivilOf(n), CivilOf(p));
  }

  /** The key a day is written as is read back as that day exactly from the year 100 on: the years 0 to 99 come
      back in the 1900s, and a negative year comes back as a month of 1900 or later. */
  lemma ReadsBack(n: int)
    ensures DayOf(Text(CivilOf(n))) == n <==> CivilOf(n).y >= 100
  {
    hide CivilOf;
    hide DayOf;
    hide Text;
    if CivilOf(n).y >= 100 {
      ReadsBackLater(n);
    } else {
      ReadsBackElsewhere(n);
    }
  }

  /** Different days are written differently. */
  lemma TextDistinct(n: int, p: int)
    requires Text(CivilOf(n)) == Text(CivilOf(p))
    ensures n == p
  {
    hide CivilOf;
    hide DayNumber;
    hide IsDate;
    hide Text;
    var c, e := CivilOf(n), CivilOf(p);
    DayAtMost31(c);
    DayAtMost31(e);
    SameText(c, e);
    assert DayNumber(c) == n && DayNumber(e) == p;
  }

  lemma SameText(c: Civil, e: Civil)
    requires 0 <= c.m <= 99 && 0 <= c.d <= 99 && 0 <= e.m <= 99 && 0 <= e.d <= 99
    requires Text(c) == Text(e)
    ensures c == e
  {
    var k, l := Text(c), Text(e);
    assert k[..|k| - 6] == Signed(c.y) && k[|k| - 5..|k| - 3] == Pad(c.m, 2) && k[|k| - 2..] == Pad(c.d, 2);
    assert l[..|l| - 6] == Signed(e.y) && l[|l| - 5..|l| - 3] == Pad(e.m, 2) && l[|l| - 2..] == Pad(e.d, 2);
    SignedDistinct(c.y, e.y);
    Powers();
    PadReads(c.m, 2);
    PadReads(e.m, 2);
    PadReads(c.d, 2);
    PadReads(e.d, 2);
  }

  /** Shifts compose, `a` days and then `b` days being `a + b` days, exactly when the first of them stays in years
      from 100 on. */
  lemma AddDaysComposes(k: string, a: int, b: int)
    requires IsReadable(k)
    ensures AddDaysToKey(AddDaysToKey(k, a), b) == AddDaysToKey(k, a + b) <==> CivilOf(DayOf(k) + a).y >= 100
  {
    hide CivilOf;
    hide DayOf;
    hide Text;
    hide AddDaysToKey;
    hide IsReadable;
    AddDaysIs(k, a);
    AddDaysIs(AddDaysToKey(k, a), b);
    AddDaysIs(k, a + b);
    ReadsBack(DayOf(k) + a);
    if DayOf(AddDaysToKey(k, a)) + b != DayOf(k) + (a + b)
      && AddDaysToKey(AddDaysToKey(k, a), b) == AddDaysToKey(k, a + b) {
      TextDistinct(DayOf(AddDaysToKey(k, a)) + b, DayOf(k) + (a + b));
    }
  }

  /** What an accepted key is written as when nothing is added: itself from the year 1000 on. */
  lemma Unshifted(k: string)
    requires IsValidDateKey(k)
    ensures AddDaysToKey(k, 0) == k <==> Parsed(k).y >= 1000
  {
    hide CivilOf;
    hide DayOf;
    hide Text;
    hide AddDaysToKey;
    hide IsDate;
    AddDaysIs(k, 0);
    ValidIsRealDate(k);
    DayAtMost31(Parsed(k));
    ShapedIsText(k);
    if Parsed(k).y >= 1000 {
      FourDigitText(Parsed(k));
    } else {
      ShortYear(Parsed(k));
    }
  }

  lemma ShortYear(c: Civil)
    requires 0 <= c.y < 1000 && c.m >= 0 && c.d >= 0
    ensures |Text(c)| < 10
  {
    assert c.y >= 10 ==> Decimal(c.y) == Decimal(c.y / 10) + [DigitOf(c.y % 10)];
    assert c.y >= 100 ==> Decimal(c.y / 10) == Decimal(c.y / 100) + [DigitOf(c.y / 10 % 10)];
    assert Decimal(c.y / 100) == [DigitOf(c.y / 100)];
  }

  /** And undo each other: an accepted key comes back from any shift that stays in years from 100 on, written
      with its own year, which is itself from the year 1000 on. */
  lemma AddDaysInverts(k: string, days: int)
    requires IsValidDateKey(k)
    ensures AddDaysToKey(AddDaysToKey(k, days), -days) == Text(Parsed(k)) <==> CivilOf(DayOf(k) + days).y >= 100
    ensures AddDaysToKey(AddDaysToKey(k, days), -days) == k <==>
            CivilOf(DayOf(k) + days).y >= 100 && Parsed(k).y >= 1000
  {
    hide CivilOf;
    hide DayOf;
    hide Text;
    hide AddDaysToKey;
    hide IsDateText;
    hide IsDate;
    AddDaysComposes(k, days, -days);
    AddDaysIs(k, 0);
    Unshifted(k);
    ValidIsRealDate(k);
    var back := AddDaysToKey(AddDaysToKey(k, days), -days);
    AddDaysIs(AddDaysToKey(k, days), -days);
    if back == k {
      ItselfIsItsDay(k, DayOf(AddDaysToKey(k, days)) - days);
    }
  }

  /** A key that is the text of some day is the text of its own. */
  lemma ItselfIsItsDay(k: string, p: int)
    requires IsValidDateKey(k) && k == Text(CivilOf(p))
    ensures p == DayOf(k) && k == Text(Parsed(k))
  {
    hide CivilOf;
    hide DayOf;
    hide Text;
    hide IsDate;
    ValidIsRealDate(k);
    ReadsBack(p);
    var c := CivilOf(p);
    DayAtMost31(c);
    TextParses(c);
  }

  lemma WeekdayStep(n: int)
    ensures IsoWeekday(n + 1) == IsoWeekday(n) % 7 + 1
  {
  }

  /** Where the weekdays are anchored: 1970-01-01 was a Thursday. */
  lemma EpochWasThursday()
    ensures IsoWeekday(DayNumber(Civil(1970, 1, 1))) == 4
  {
    assert DayFromYear(1970) == 0 && MonthStart(0, IsLeap(1970)) == 0;
  }

  /** The day after a Sunday is a Monday, after any other day the next weekday. */
  lemma WeekdayAdvances(k: string)
    requires IsReadable(k) && CivilOf(DayOf(k) + 1).y >= 100
    ensures IsoWeekdayOfKey(AddDaysToKey(k, 1)) == IsoWeekdayOfKey(k) % 7 + 1
  {
    hide CivilOf;
    hide DayOf;
    hide Text;
    hide AddDaysToKey;
    hide IsReadable;
    hide IsoWeekday;
    AddDaysIs(k, 1);
    ReadsBack(DayOf(k) + 1);
    WeekdayStep(DayOf(k));
  }

  // ---- order ----

  /** The number the digits of a key make. */
  function Rank(k: string): (r: nat)
    requires IsShaped(k)
  {
    Parsed(k).y * 10000 + Parsed(k).m * 100 + Parsed(k).d
  }

  /** Strings joined alike compare part by part. */
  lemma PartsInOrder(p: string, q: string, r: string, s: string)
    requires |p| == |r|
    ensures TextOrder.Before(p + "-" + q, r + "-" + s) <==>
            TextOrder.Before(p, r) || (p == r && TextOrder.Before(q, s))
    ensures p + "-" + q == r + "-" + s <==> p == r && q == s
  {
    TextOrder.HeadFirst(p + "-", q, r + "-", s);
    TextOrder.HeadFirst(p, "-", r, "-");
    TextOrder.Total("-", "-");
    assert (p + "-")[..|p|] == p && (r + "-")[..|r|] == r;
    assert (p + "-" + q)[..|p| + 1] == p + "-" && (r + "-" + s)[..|r| + 1] == r + "-";
    assert (p + "-" + q)[|p| + 1..] == q && (r + "-" + s)[|r| + 1..] == s;
  }

  lemma PadOrder(a: nat, b: nat, width: nat)
    requires a < Power10(width) && b < Power10(width)
    ensures TextOrder.Before(Pad(a, width), Pad(b, width)) <==> a < b
    ensures Pad(a, width) == Pad(b, width) <==> a == b
  {
    PadReads(a, width);
    PadReads(b, width);
    DigitsOrder(Pad(a, width), Pad(b, width));
  }

  /** The order of keys as strings is the order of their digits. */
  lemma KeyOrder(k: string, l: string)
    requires IsShaped(k) && IsShaped(l)
    ensures TextOrder.Before(k, l) <==> Rank(k) < Rank(l)
  {
    hide IsShaped;
    hide Parsed;
    hide TextOrder.Before;
    hide Pad;
    ShapedIsText(k);
    ShapedIsText(l);
    var a, b := Parsed(k), Parsed(l);
    Powers();
    PadOrder(a.y, b.y, 4);
    PadOrder(a.m, b.m, 2);
    PadOrder(a.d, b.d, 2);
    PartsInOrder(Pad(a.y, 4) + "-" + Pad(a.m, 2), Pad(a.d, 2), Pad(b.y, 4) + "-" + Pad(b.m, 2), Pad(b.d, 2));
    PartsInOrder(Pad(a.y, 4), Pad(a.m, 2), Pad(b.y, 4), Pad(b.m, 2));
  }

  lemma RankOrder(a: Civil, b: Civil)
    requires IsDate(a) && IsDate(b)
    ensures a.y * 10000 + a.m * 100 + a.d < b.y * 10000 + b.m * 100 + b.d <==> Before(a, b)
  {
    DayAtMost31(a);
    DayAtMost31(b);
    hide IsDate;
  }

  /** String order on valid keys is chronological order. */
  lemma KeyOrderIsChronological(k: string, l: string)
    requires IsValidDateKey(k) && IsValidDateKey(l)
    ensures TextOrder.Before(k, l) <==> DayOf(k) < DayOf(l)
  {
    hide DayNumber;
    hide DayOf;
    hide CivilOf;
    hide TextOrder.Before;
    hide Parsed;
    hide IsDateText;
    hide IsDate;
    KeyOrder(k, l);
    ValidIsRealDate(k);
    ValidIsRealDate(l);
    RankOrder(Parsed(k), Parsed(l));
    BeforeIffEarlier(Parsed(k), Parsed(l));
  }
}
