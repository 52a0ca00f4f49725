/** Week patterns in force from a date: the stored history, and the history with a new pattern in it. */
module WeekPatterns {
  import opened Options
  import opened DateKeys
  import opened Decimals
  import opened Gregorian
  import TextOrder

  const PATTERN_SINCE_ALWAYS := "0000-01-01"
  const DEFAULT_WEEK_PATTERN := [1, 2, 3, 4, 5, 6]

  /** ISO weekdays worked from a date on, until the next entry. */
  datatype Entry = Entry(from: string, days: seq<int>)

  // ---- weekdays ----

  /** A stored list of weekdays: what is not a whole number is `None`. */
  datatype StoredDays = NotAList | List(items: seq<Option<int>>)

  function WeekFrom(items: seq<Option<int>>, first: int): (days: seq<int>)
    requires 1 <= first <= 8
    decreases 8 - first
  {
    if first == 8 then [] else (if Some(first) in items then [first] else []) + WeekFrom(items, first + 1)
  }

  /** The whole numbers 1 to 7 that are stored, once each, in order; Monday to Saturday when there is no list. */
  function WeekPatternFromStored(stored: StoredDays): seq<int> {
    if stored.NotAList? then DEFAULT_WEEK_PATTERN else WeekFrom(stored.items, 1)
  }

  /** A validated week pattern, or the problem with it. */
  function CheckWeekPattern(days: StoredDays): Option<seq<int>> {
    if days.NotAList? || exists i | 0 <= i < |days.items| :: days.items[i].None? || !(1 <= days.items[i].value <= 7)
    then None
    else Some(WeekFrom(days.items, 1))
  }

  predicate IsWeekFrom(days: seq<int>, first: int) {
    days == [] || (first <= days[0] <= 7 && IsWeekFrom(days[1..], days[0] + 1))
  }

  predicate IsWeek(days: seq<int>) { IsWeekFrom(days, 1) }

  lemma {:induction false} WeekFromIs(items: seq<Option<int>>, first: int)
    requires 1 <= first <= 8
    ensures IsWeekFrom(WeekFrom(items, first), first)
    ensures forall d :: d in WeekFrom(items, first) <==> first <= d <= 7 && Some(d) in items
    decreases 8 - first
  {
    if first < 8 {
      WeekFromIs(items, first + 1);
      var rest := WeekFrom(items, first + 1);
      if Some(first) in items {
        assert ([first] + rest)[1..] == rest;
      } else {
        assert [] + rest == rest;
      }
    }
  }

  /** The weekdays that are kept are exactly the stored whole numbers 1 to 7. */
  lemma WeekdaysKept(items: seq<Option<int>>)
    ensures IsWeek(WeekPatternFromStored(List(items)))
    ensures forall d :: d in WeekPatternFromStored(List(items)) <==> 1 <= d <= 7 && Some(d) in items
  {
    WeekFromIs(items, 1);
  }

  /** A list is accepted exactly when every item is a weekday, and an accepted one loses nothing. */
  lemma CheckedWeek(items: seq<Option<int>>)
    ensures CheckWeekPattern(List(items)).Some? <==>
              forall i | 0 <= i < |items| :: items[i].Some? && 1 <= items[i].value <= 7
    ensures CheckWeekPattern(List(items)).Some? ==>
              && IsWeek(CheckWeekPattern(List(items)).value)
              && forall d :: d in CheckWeekPattern(List(items)).value <==> Some(d) in items
  {
    hide WeekFrom;
    hide IsWeekFrom;
    WeekFromIs(items, 1);
  }

  function AsItems(days: seq<int>): (items: seq<Option<int>>)
    ensures |items| == |days| && forall i | 0 <= i < |days| :: items[i] == Some(days[i])
  {
    seq(|days|, i requires 0 <= i < |days| => Some(days[i]))
  }

  lemma {:induction false} WeekMembers(days: seq<int>, first: int)
    requires IsWeekFrom(days, first)
    ensures forall d | d in days :: first <= d <= 7
    decreases |days|
  {
    if days != [] {
      WeekMembers(days[1..], days[0] + 1);
      assert days == [days[0]] + days[1..];
    }
  }

  lemma {:induction false} WeekFromKeeps(items: seq<Option<int>>, first: int, days: seq<int>)
    requires 1 <= first <= 8 && IsWeekFrom(days, first)
    requires forall d | first <= d <= 7 :: d in days <==> Some(d) in items
    ensures WeekFrom(items, first) == days
    decreases 8 - first
  {
    if first < 8 {
      if days != [] && days[0] == first {
        var rest := days[1..];
        assert days == [first] + rest;
        WeekFromKeeps(items, first + 1, rest);
      } else {
        WeekMembers(days, first + 1);
        WeekFromKeeps(items, first + 1, days);
      }
    }
  }

  /** A week in order is read back as it was written. */
  lemma WeekReadBack(days: seq<int>)
    requires IsWeek(days)
    ensures WeekPatternFromStored(List(AsItems(days))) == days
  {
    var items := AsItems(days);
    forall d | 1 <= d <= 7 ensures d in days <==> Some(d) in items {
      if d in days {
        var i :| 0 <= i < |days| && days[i] == d;
        assert items[i] == Some(d);
      }
    }
    WeekFromKeeps(items, 1, days);
  }

  // ---- the pattern of a date ----

  /** Oldest first, one entry per date. */
  predicate Ascending(entries: seq<Entry>) {
    forall i | 0 < i < |entries| :: TextOrder.Before(entries[i - 1].from, entries[i].from)
  }

  function Latest(entries: seq<Entry>, date: string, found: seq<int>): seq<int> {
    if entries == [] || TextOrder.Before(date, entries[0].from) then found
    else Latest(entries[1..], date, entries[0].days)
  }

  /** The pattern that applies on a date; before the first entry, its days. */
  function PatternOn(entries: seq<Entry>, date: string): seq<int>
    requires entries != []
  {
    Latest(entries, date, entries[0].days)
  }

  lemma AscendingTail(entries: seq<Entry>)
    requires Ascending(entries) && entries != []
    ensures Ascending(entries[1..])
  {
    forall i | 0 < i < |entries| - 1 ensures TextOrder.Before(entries[1..][i - 1].from, entries[1..][i].from) {
      assert TextOrder.Before(entries[i].from, entries[i + 1].from);
    }
  }

  /** In a history the pattern of a date is that of the entry it falls under: the last one not after it. */
  lemma {:induction false} LatestIs(entries: seq<Entry>, date: string, found: seq<int>, i: nat)
    requires Ascending(entries) && i < |entries| && !TextOrder.Before(date, entries[i].from)
    requires i + 1 == |entries| || TextOrder.Before(date, entries[i + 1].from)
    ensures Latest(entries, date, found) == entries[i].days
    decreases i
  {
    if i > 0 {
      AscendingTail(entries);
      NotBeforeEarlier(entries, date, i);
      LatestIs(entries[1..], date, entries[0].days, i - 1);
    }
  }

  lemma {:induction false} NotBeforeEarlier(entries: seq<Entry>, date: string, i: nat)
    requires Ascending(entries) && i < |entries| && !TextOrder.Before(date, entries[i].from)
    ensures !TextOrder.Before(date, entries[0].from)
    decreases i
  {
    if i > 0 {
      assert TextOrder.Before(entries[i - 1].from, entries[i].from);
      if TextOrder.Before(date, entries[i - 1].from) {
        TextOrder.Transitive(date, entries[i - 1].from, entries[i].from);
      }
      NotBeforeEarlier(entries, date, i - 1);
    }
  }

  method FindPattern(entries: seq<Entry>, date: string) returns (days: seq<int>)
    requires entries != []
    ensures days == PatternOn(entries, date)
  {
    days := entries[0].days;
    var i := 0;
    while i < |entries|
      invariant i <= |entries|
      invariant Latest(entries[i..], date, days) == PatternOn(entries, date)
    {
      if TextOrder.Before(date, entries[i].from) {
        break;
      }
      days := entries[i].days;
      assert entries[i..][1..] == entries[i + 1..];
      i := i + 1;
    }
  }

  // ---- a new pattern ----

  function Kept(entries: seq<Entry>, from: string): seq<Entry> {
    if entries == [] then []
    else (if TextOrder.Before(entries[0].from, from) then [entries[0]] else []) + Kept(entries[1..], from)
  }

  /** The history with `days` in force from `from` on: entries from that date on are replaced, and nothing is
      added when those days are already in force. */
  function WithPatternFrom(entries: seq<Entry>, from: string, days: seq<int>): seq<Entry> {
    var kept := Kept(entries, from);
    if kept != [] && kept[|kept| - 1].days == days then kept else kept + [Entry(from, days)]
  }

  /** Before `from` the kept entries give what all of them gave. */
  lemma {:induction false} KeptBefore(entries: seq<Entry>, from: string, date: string, found: seq<int>)
    requires Ascending(entries) && TextOrder.Before(date, from)
    ensures Latest(Kept(entries, from), date, found) == Latest(entries, date, found)
    decreases |entries|
  {
    if entries != [] {
      AscendingTail(entries);
      var first := entries[0];
      if TextOrder.Before(first.from, from) {
        assert Kept(entries, from)[1..] == Kept(entries[1..], from);
        KeptBefore(entries[1..], from, date, first.days);
      } else {
        KeptBefore(entries[1..], from, date, found);
        NotAfter(first.from, from, date);
        if |entries| > 1 {
          assert TextOrder.Before(first.from, entries[1].from);
          TextOrder.Transitive(date, first.from, entries[1].from);
          assert entries[1..][0] == entries[1];
        }
        assert Kept(entries, from) == Kept(entries[1..], from);
      }
    }
  }

  lemma {:induction false} NotAfter(first: string, from: string, date: string)
    requires !TextOrder.Before(first, from) && TextOrder.Before(date, from)
    ensures TextOrder.Before(date, first)
  {
    TextOrder.Total(first, from);
    if first != from {
      TextOrder.Transitive(date, from, first);
    }
  }

  predicate AllBefore(entries: seq<Entry>, from: string) {
    forall i | 0 <= i < |entries| :: TextOrder.Before(entries[i].from, from)
  }

  lemma {:induction false} KeptAreBefore(entries: seq<Entry>, from: string)
    ensures AllBefore(Kept(entries, from), from)
    decreases |entries|
  {
    if entries != [] {
      KeptAreBefore(entries[1..], from);
    }
  }

  /** An added last entry decides from its date on, and changes nothing before. */
  lemma {:induction false} LastEntry(kept: seq<Entry>, last: Entry, date: string, found: seq<int>)
    requires AllBefore(kept, last.from)
    ensures Latest(kept + [last], date, found) ==
            if TextOrder.Before(date, last.from) then Latest(kept, date, found) else last.days
    decreases |kept|
  {
    if kept == [] {
      assert (kept + [last])[1..] == [];
    } else {
      assert (kept + [last])[0] == kept[0] && (kept + [last])[1..] == kept[1..] + [last];
      if TextOrder.Before(date, kept[0].from) {
        TextOrder.Transitive(date, kept[0].from, last.from);
      } else {
        LastEntry(kept[1..], last, date, kept[0].days);
      }
    }
  }

  lemma {:induction false} LastKept(kept: seq<Entry>, from: string, date: string, found: seq<int>)
    requires kept != [] && AllBefore(kept, from) && !TextOrder.Before(date, from)
    ensures Latest(kept, date, found) == kept[|kept| - 1].days
    decreases |kept|
  {
    var first := kept[0];
    if TextOrder.Before(date, first.from) {
      TextOrder.Transitive(date, first.from, from);
    }
    if |kept| > 1 {
      LastKept(kept[1..], from, date, first.days);
    }
  }

  /** The pattern on any date after a change: the old one before the change's date, the new days from it on. */
  lemma ChangedFrom(entries: seq<Entry>, from: string, days: seq<int>, date: string)
    requires entries != [] && Ascending(entries) && TextOrder.Before(entries[0].from, from)
    ensures WithPatternFrom(entries, from, days) != []
    ensures PatternOn(WithPatternFrom(entries, from, days), date) ==
            if TextOrder.Before(date, from) then PatternOn(entries, date) else days
  {
    var kept := Kept(entries, from);
    var found := entries[0].days;
    assert kept[0] == entries[0];
    KeptAreBefore(entries, from);
    LastEntry(kept, Entry(from, days), date, found);
    if TextOrder.Before(date, from) {
      KeptBefore(entries, from, date, found);
    } else {
      LastKept(kept, from, date, found);
    }
  }

  lemma {:induction false} KeptWhole(entries: seq<Entry>, from: string)
    requires AllBefore(entries, from)
    ensures Kept(entries, from) == entries
    decreases |entries|
  {
    if entries != [] {
      KeptWhole(entries[1..], from);
      assert entries == [entries[0]] + entries[1..];
    }
  }

  /** Asking later for the week already in force adds nothing to the history. */
  lemma SameWeekAddsNothing(entries: seq<Entry>, from: string, days: seq<int>, later: string)
    requires TextOrder.Before(from, later)
    ensures var changed := WithPatternFrom(entries, from, days); WithPatternFrom(changed, later, days) == changed
  {
    var kept, changed := Kept(entries, from), WithPatternFrom(entries, from, days);
    KeptAreBefore(entries, from);
    forall i | 0 <= i < |changed|
      ensures TextOrder.Before(changed[i].from, later)
    {
      if i < |kept| {
        TextOrder.Transitive(kept[i].from, from, later);
      }
    }
    KeptWhole(changed, later);
  }

  // ---- histories as they are stored ----

  /** A stored entry: `from` is `None` when it is not text. */
  datatype StoredEntry = Junk | Stored(from: Option<string>, days: StoredDays)
  datatype StoredHistory = NoHistory | History(entries: seq<StoredEntry>)

  predicate IsStart(from: string) { from == PATTERN_SINCE_ALWAYS || IsValidDateKey(from) }

  predicate Sound(e: StoredEntry) { e.Stored? && e.from.Some? && IsStart(e.from.value) && e.days.List? }

  /** The days stored for each date, the last stored winning. */
  function ByFrom(stored: seq<StoredEntry>): map<string, seq<int>> {
    if stored == [] then map[]
    else
      var e := stored[|stored| - 1];
      var before := ByFrom(stored[..|stored| - 1]);
      if Sound(e) then before[e.from.value := WeekPatternFromStored(e.days)] else before
  }

  /** The entry put in its place by date, over any entry of that date. */
  function Insert(entries: seq<Entry>, e: Entry): (r: seq<Entry>)
    ensures r != [] && (r[0] == e || (entries != [] && r[0] == entries[0]))
  {
    if entries == [] || TextOrder.Before(e.from, entries[0].from) then [e] + entries
    else if e.from == entries[0].from then [e] + entries[1..]
    else [entries[0]] + Insert(entries[1..], e)
  }

  function MapOf(entries: seq<Entry>): map<string, seq<int>> {
    if entries == [] then map[] else MapOf(entries[1..])[entries[0].from := entries[0].days]
  }

  predicate AllAfter(entries: seq<Entry>, from: string) {
    entries == [] || TextOrder.Before(from, entries[0].from)
  }

  lemma {:induction false} AfterAll(entries: seq<Entry>, from: string)
    requires Ascending(entries) && AllAfter(entries, from)
    ensures forall k | k in MapOf(entries) :: TextOrder.Before(from, k)
    decreases |entries|
  {
    if entries != [] {
      AscendingTail(entries);
      if |entries| > 1 {
        assert TextOrder.Before(entries[0].from, entries[1].from);
        TextOrder.Transitive(from, entries[0].from, entries[1].from);
      }
      AfterAll(entries[1..], from);
    }
  }

  lemma AscendingCons(e: Entry, entries: seq<Entry>)
    requires Ascending(entries) && AllAfter(entries, e.from)
    ensures Ascending([e] + entries)
  {
    var all := [e] + entries;
    forall i | 0 < i < |all| ensures TextOrder.Before(all[i - 1].from, all[i].from) {
      if i > 1 {
        assert TextOrder.Before(entries[i - 2].from, entries[i - 1].from);
      }
    }
  }

  lemma TailAfter(entries: seq<Entry>)
    requires Ascending(entries) && entries != []
    ensures AllAfter(entries[1..], entries[0].from)
  {
    if |entries| > 1 {
      assert TextOrder.Before(entries[0].from, entries[1].from);
    }
  }

  lemma {:induction false} Inserted(entries: seq<Entry>, e: Entry)
    requires Ascending(entries)
    ensures Ascending(Insert(entries, e))
    ensures MapOf(Insert(entries, e)) == MapOf(entries)[e.from := e.days]
    decreases |entries|
  {
    if entries == [] || TextOrder.Before(e.from, entries[0].from) {
      AscendingCons(e, entries);
      assert ([e] + entries)[1..] == entries;
    } else {
      AscendingTail(entries);
      TailAfter(entries);
      var rest := entries[1..];
      if e.from == entries[0].from {
        AscendingCons(e, rest);
        assert ([e] + rest)[1..] == rest;
      } else {
        TextOrder.Total(e.from, entries[0].from);
        Inserted(rest, e);
        var more := Insert(rest, e);
        AscendingCons(entries[0], more);
        assert ([entries[0]] + more)[1..] == more;
      }
    }
  }

  lemma EmptyMap(entries: seq<Entry>)
    ensures entries == [] <==> MapOf(entries) == map[]
  {
    if entries != [] {
      assert entries[0].from in MapOf(entries);
    }
  }

  /** A history is determined by what it says of each date. */
  lemma {:induction false} SameMapSame(a: seq<Entry>, b: seq<Entry>)
    requires Ascending(a) && Ascending(b) && MapOf(a) == MapOf(b)
    ensures a == b
    decreases |a|
  {
    EmptyMap(a);
    EmptyMap(b);
    if a != [] && b != [] {
      AscendingTail(a);
      AscendingTail(b);
      SameHead(a, b);
      TailAfter(a);
      TailAfter(b);
      AfterAll(a[1..], a[0].from);
      AfterAll(b[1..], b[0].from);
      TextOrder.Total(a[0].from, a[0].from);
      assert MapOf(a[1..]) == MapOf(a) - {a[0].from};
      assert MapOf(b[1..]) == MapOf(b) - {b[0].from};
      SameMapSame(a[1..], b[1..]);
      assert a[0].days == MapOf(a)[a[0].from] == MapOf(b)[b[0].from] == b[0].days;
      assert a == [a[0]] + a[1..] && b == [b[0]] + b[1..];
    }
  }

  lemma SameHead(a: seq<Entry>, b: seq<Entry>)
    requires Ascending(a) && Ascending(b) && MapOf(a) == MapOf(b) && a != [] && b != []
    ensures a[0].from == b[0].from
  {
    assert a[0].from in MapOf(a) && b[0].from in MapOf(b);
    HeadIsFirst(a, b[0].from);
    HeadIsFirst(b, a[0].from);
    TextOrder.Total(a[0].from, b[0].from);
  }

  lemma HeadIsFirst(entries: seq<Entry>, from: string)
    requires Ascending(entries) && entries != [] && from in MapOf(entries)
    ensures from == entries[0].from || TextOrder.Before(entries[0].from, from)
  {
    AscendingTail(entries);
    TailAfter(entries);
    AfterAll(entries[1..], entries[0].from);
  }

  /** The sound entries, sorted by date. */
  function Sorted(stored: seq<StoredEntry>): seq<Entry> {
    if stored == [] then []
    else
      var e := stored[|stored| - 1];
      var before := Sorted(stored[..|stored| - 1]);
      if Sound(e) then Insert(before, Entry(e.from.value, WeekPatternFromStored(e.days))) else before
  }

  /** Sorting the entries says of each date what was stored for it last. */
  lemma {:induction false} SortedIs(stored: seq<StoredEntry>)
    ensures Ascending(Sorted(stored)) && MapOf(Sorted(stored)) == ByFrom(stored)
    decreases |stored|
  {
    if stored != [] {
      var e := stored[|stored| - 1];
      var before := stored[..|stored| - 1];
      SortedIs(before);
      if Sound(e) {
        Inserted(Sorted(before), Entry(e.from.value, WeekPatternFromStored(e.days)));
      }
    }
  }

  /** The history from what is stored: sound entries in order, after the single older pattern when none of
      them has applied since always. */
  function PatternHistoryFromStored(history: StoredHistory, legacy: StoredDays): (entries: seq<Entry>)
    ensures entries != []
  {
    var base := Entry(PATTERN_SINCE_ALWAYS, WeekPatternFromStored(legacy));
    if history.NoHistory? then [base]
    else
      var entries := Sorted(history.entries);
      if entries == [] then [base]
      else if entries[0].from != PATTERN_SINCE_ALWAYS then [base] + entries
      else entries
  }

  method SortByDate(byFrom: map<string, seq<int>>) returns (entries: seq<Entry>)
    ensures Ascending(entries) && MapOf(entries) == byFrom
  {
    entries := [];
    var left := byFrom.Keys;
    while left != {}
      invariant left <= byFrom.Keys
      invariant Ascending(entries)
      invariant MapOf(entries) == map k | k in byFrom && k !in left :: byFrom[k]
      decreases |left|
    {
      var from :| from in left;
      Inserted(entries, Entry(from, byFrom[from]));
      entries := Insert(entries, Entry(from, byFrom[from]));
      left := left - {from};
    }
  }

  method ReadHistory(history: StoredHistory, legacy: StoredDays) returns (entries: seq<Entry>)
    ensures entries == PatternHistoryFromStored(history, legacy)
  {
    var base := Entry(PATTERN_SINCE_ALWAYS, WeekPatternFromStored(legacy));
    if history.NoHistory? {
      return [base];
    }
    var byFrom := map[];
    for i := 0 to |history.entries|
      invariant byFrom == ByFrom(history.entries[..i])
    {
      var e := history.entries[i];
      assert history.entries[..i + 1][..i] == history.entries[..i];
      if Sound(e) {
        byFrom := byFrom[e.from.value := WeekPatternFromStored(e.days)];
      }
    }
    assert history.entries[..|history.entries|] == history.entries;
    entries := SortByDate(byFrom);
    SortedIs(history.entries);
    SameMapSame(entries, Sorted(history.entries));
    if entries == [] {
      return [base];
    }
    if entries[0].from != PATTERN_SINCE_ALWAYS {
      entries := [base] + entries;
    }
  }

  // ---- normalised histories ----

  predicate IsSoundEntry(e: Entry) { IsStart(e.from) && IsWeek(e.days) }

  predicate Normal(entries: seq<Entry>) {
    && entries != [] && entries[0].from == PATTERN_SINCE_ALWAYS
    && Ascending(entries)
    && forall i | 0 <= i < |entries| :: IsSoundEntry(entries[i])
  }

  lemma StartOfTime()
    ensures IsShaped(PATTERN_SINCE_ALWAYS) && Rank(PATTERN_SINCE_ALWAYS) == 101
  {
    assert Pad(0, 1) == Pad(0, 0) + ['0'] && Pad(0, 2) == Pad(0, 1) + ['0'] && Pad(1, 2) == Pad(0, 1) + ['1'];
    assert Pad(0, 3) == Pad(0, 2) + ['0'] && Pad(0, 4) == Pad(0, 3) + ['0'];
    assert PATTERN_SINCE_ALWAYS == KeyText(0, 1, 1);
    TextReads(0, 1, 1);
  }

  /** Every date that can be entered is after the first entry. */
  lemma AfterAlways(from: string)
    requires IsValidDateKey(from)
    ensures TextOrder.Before(PATTERN_SINCE_ALWAYS, from)
  {
    StartOfTime();
    ValidIsRealDate(from);
    KeyOrder(PATTERN_SINCE_ALWAYS, from);
  }

  predicate AllSound(entries: seq<Entry>) { forall i | 0 <= i < |entries| :: IsSoundEntry(entries[i]) }

  lemma WeekIsWeek(stored: StoredDays)
    ensures IsWeek(WeekPatternFromStored(stored))
  {
    if stored.List? {
      WeekFromIs(stored.items, 1);
    } else {
      assert IsWeekFrom([6], 6);
      assert IsWeekFrom([5, 6], 5) && IsWeekFrom([4, 5, 6], 4) && IsWeekFrom([3, 4, 5, 6], 3);
      assert IsWeekFrom([2, 3, 4, 5, 6], 2);
    }
  }

  lemma {:induction false} InsertKeepsSound(entries: seq<Entry>, e: Entry)
    requires AllSound(entries) && IsSoundEntry(e)
    ensures AllSound(Insert(entries, e))
    decreases |entries|
  {
    if entries != [] && !TextOrder.Before(e.from, entries[0].from) && e.from != entries[0].from {
      InsertKeepsSound(entries[1..], e);
    }
  }

  lemma {:induction false} SortedSound(stored: seq<StoredEntry>)
    ensures AllSound(Sorted(stored))
    decreases |stored|
  {
    if stored != [] {
      var e := stored[|stored| - 1];
      SortedSound(stored[..|stored| - 1]);
      if Sound(e) {
        WeekIsWeek(e.days);
        InsertKeepsSound(Sorted(stored[..|stored| - 1]), Entry(e.from.value, WeekPatternFromStored(e.days)));
      }
    }
  }

  /** Whatever is stored, the history read is normal: since always, in order of date, one entry per date,
      each a week of ISO weekdays in order. */
  lemma HistoryIsNormal(history: StoredHistory, legacy: StoredDays)
    ensures Normal(PatternHistoryFromStored(history, legacy))
  {
    hide IsWeek;
    hide IsValidDateKey;
    hide WeekPatternFromStored;
    WeekIsWeek(legacy);
    if history.History? {
      var entries := Sorted(history.entries);
      SortedIs(history.entries);
      SortedSound(history.entries);
      if entries != [] && entries[0].from != PATTERN_SINCE_ALWAYS {
        AfterAlways(entries[0].from);
        AscendingCons(Entry(PATTERN_SINCE_ALWAYS, WeekPatternFromStored(legacy)), entries);
      }
    }
  }

  /** The stored entry says the week from that date: text that is a real date or the beginning of time, and a list. */
  predicate Says(e: StoredEntry, from: string): (said: bool)
    ensures said ==> e.Stored?
  {
    e.Stored? && e.from == Some(from) && (from == "0000-01-01" || IsValidDateKey(from)) && e.days.List?
  }

  /** Says it, and no later one does. */
  predicate SaysLast(stored: seq<StoredEntry>, from: string, i: nat) {
    i < |stored| && Says(stored[i], from) && forall k | i < k < |stored| :: !Says(stored[k], from)
  }

  lemma SaysIsSound(e: StoredEntry, from: string)
    ensures Says(e, from) <==> Sound(e) && e.from.value == from
  {
    hide IsValidDateKey;
  }

  lemma {:induction false} ByFromIs(stored: seq<StoredEntry>, from: string)
    ensures from in ByFrom(stored) <==> exists i | 0 <= i < |stored| :: Says(stored[i], from)
    ensures forall i: nat | SaysLast(stored, from, i) ::
              from in ByFrom(stored) && ByFrom(stored)[from] == WeekPatternFromStored(stored[i].days)
    decreases |stored|
  {
    hide Says;
    hide Sound;
    hide WeekPatternFromStored;
    if stored != [] {
      var n := |stored| - 1;
      var before := stored[..n];
      ByFromIs(before, from);
      SaysIsSound(stored[n], from);
      if Says(stored[n], from) {
        assert forall i: nat | SaysLast(stored, from, i) :: i == n;
      } else {
        assert from in ByFrom(stored) <==> from in ByFrom(before);
        if i :| 0 <= i < |stored| && Says(stored[i], from) {
          assert before[i] == stored[i];
        }
        forall i: nat | SaysLast(stored, from, i)
          ensures from in ByFrom(stored) && ByFrom(stored)[from] == WeekPatternFromStored(stored[i].days)
        {
          assert SaysLast(before, from, i);
        }
      }
    }
  }

  /** The map of a history: what is stored for each date, and the single older pattern from the beginning of time
      when nothing is stored for that. */
  lemma HistoryMap(history: seq<StoredEntry>, legacy: StoredDays)
    ensures MapOf(PatternHistoryFromStored(History(history), legacy)) ==
            if PATTERN_SINCE_ALWAYS in ByFrom(history) then ByFrom(history)
            else ByFrom(history)[PATTERN_SINCE_ALWAYS := WeekPatternFromStored(legacy)]
  {
    hide IsValidDateKey;
    hide WeekPatternFromStored;
    var entries, base := Sorted(history), Entry(PATTERN_SINCE_ALWAYS, WeekPatternFromStored(legacy));
    SortedIs(history);
    EmptyMap(entries);
    if entries != [] && entries[0].from != PATTERN_SINCE_ALWAYS {
      SortedSound(history);
      AfterAlways(entries[0].from);
      if PATTERN_SINCE_ALWAYS in MapOf(entries) {
        HeadIsFirst(entries, PATTERN_SINCE_ALWAYS);
        TextOrder.Total(PATTERN_SINCE_ALWAYS, entries[0].from);
      }
      assert ([base] + entries)[1..] == entries;
    } else if entries == [] {
      OneEntryMap(base);
    } else {
      FirstIsMapped(entries);
    }
  }

  lemma OneEntryMap(e: Entry)
    ensures MapOf([e]) == map[e.from := e.days]
  {
    assert [e][1..] == [];
    assert MapOf([]) == map[];
  }

  lemma FirstIsMapped(entries: seq<Entry>)
    requires entries != []
    ensures entries[0].from in MapOf(entries)
  {
  }

  /** What a history says of a date is what was stored for that date last; from the beginning of time, when nothing was
      stored for it, it is the single older pattern; and it says nothing of any other date. */
  lemma LastStoredWins(history: seq<StoredEntry>, legacy: StoredDays, from: string)
    ensures var m := MapOf(PatternHistoryFromStored(History(history), legacy));
            var said := exists i | 0 <= i < |history| :: Says(history[i], from);
            && (from in m <==> said || from == "0000-01-01")
            && (forall i: nat | SaysLast(history, from, i) :: m[from] == WeekPatternFromStored(history[i].days))
            && (!said && from == "0000-01-01" ==> m[from] == WeekPatternFromStored(legacy))
  {
    hide IsValidDateKey;
    hide WeekPatternFromStored;
    HistoryMap(history, legacy);
    ByFromIs(history, from);
    ByFromIs(history, PATTERN_SINCE_ALWAYS);
  }

  /** Without a list of entries the history is that one pattern, and without a list of weekdays Monday to Saturday. */
  lemma OlderPatternAlone(legacy: StoredDays)
    ensures PatternHistoryFromStored(NoHistory, legacy) == [Entry("0000-01-01", WeekPatternFromStored(legacy))]
    ensures WeekPatternFromStored(NotAList) == [1, 2, 3, 4, 5, 6]
  {
  }

  /** How a history is written to the settings row. */
  function AsStored(entries: seq<Entry>): StoredHistory {
    History(seq(|entries|, i requires 0 <= i < |entries| =>
      Stored(Some(entries[i].from), List(AsItems(entries[i].days)))))
  }

  lemma {:induction false} InsertLast(entries: seq<Entry>, e: Entry)
    requires AllBefore(entries, e.from)
    ensures Insert(entries, e) == entries + [e]
    decreases |entries|
  {
    if entries != [] {
      TextOrder.Total(e.from, entries[0].from);
      InsertLast(entries[1..], e);
      assert entries == [entries[0]] + entries[1..];
    }
  }

  lemma {:induction false} EarlierAreBefore(entries: seq<Entry>, n: nat)
    requires Ascending(entries) && n < |entries|
    ensures AllBefore(entries[..n], entries[n].from)
    decreases n
  {
    if n > 0 {
      EarlierAreBefore(entries, n - 1);
      assert TextOrder.Before(entries[n - 1].from, entries[n].from);
      forall i | 0 <= i < n ensures TextOrder.Before(entries[..n][i].from, entries[n].from) {
        if i < n - 1 {
          assert entries[..n - 1][i] == entries[i];
          TextOrder.Transitive(entries[i].from, entries[n - 1].from, entries[n].from);
        }
      }
    }
  }

  lemma {:induction false} SortedReadBack(entries: seq<Entry>, n: nat)
    requires Ascending(entries) && AllSound(entries) && n <= |entries|
    ensures Sorted(AsStored(entries).entries[..n]) == entries[..n]
    decreases n
  {
    hide IsWeek;
    hide IsValidDateKey;
    hide WeekPatternFromStored;
    hide TextOrder.Before;
    hide Insert;
    if n > 0 {
      var stored := AsStored(entries).entries;
      SortedReadBack(entries, n - 1);
      assert stored[..n][..n - 1] == stored[..n - 1];
      EarlierAreBefore(entries, n - 1);
      WeekReadBack(entries[n - 1].days);
      InsertLast(entries[..n - 1], entries[n - 1]);
      assert entries[..n] == entries[..n - 1] + [entries[n - 1]];
    }
  }

  /** A normal history is read back exactly as it was written, whatever the older single pattern says. */
  lemma ReadBack(entries: seq<Entry>, legacy: StoredDays)
    requires Normal(entries)
    ensures PatternHistoryFromStored(AsStored(entries), legacy) == entries
  {
    hide IsWeek;
    hide IsValidDateKey;
    hide WeekPatternFromStored;
    SortedReadBack(entries, |entries|);
    assert AsStored(entries).entries[..|entries|] == AsStored(entries).entries;
    assert entries[..|entries|] == entries;
  }

  lemma {:induction false} KeptIsPrefix(entries: seq<Entry>, from: string)
    requires Ascending(entries)
    ensures Kept(entries, from) <= entries
    decreases |entries|
  {
    if entries != [] {
      AscendingTail(entries);
      KeptIsPrefix(entries[1..], from);
      KeptAreBefore(entries[1..], from);
      var rest := Kept(entries[1..], from);
      if TextOrder.Before(entries[0].from, from) {
        assert Kept(entries, from) == [entries[0]] + rest;
        assert entries == [entries[0]] + entries[1..];
      } else if rest != [] {
        assert rest[0] == entries[1];
        assert TextOrder.Before(entries[0].from, entries[1].from);
        TextOrder.Transitive(entries[0].from, entries[1].from, from);
      } else {
        assert Kept(entries, from) == rest;
      }
    }
  }

  /** A change leaves a normal history normal. */
  lemma ChangeKeepsNormal(entries: seq<Entry>, from: string, days: seq<int>)
    requires Normal(entries) && IsValidDateKey(from) && IsWeek(days)
    ensures Normal(WithPatternFrom(entries, from, days))
  {
    hide IsWeek;
    hide IsValidDateKey;
    AfterAlways(from);
    var kept := Kept(entries, from);
    assert kept[0] == entries[0];
    KeptIsPrefix(entries, from);
    KeptAreBefore(entries, from);
    forall i | 0 < i < |kept| ensures TextOrder.Before(kept[i - 1].from, kept[i].from) {
      assert TextOrder.Before(entries[i - 1].from, entries[i].from);
    }
  }
}
