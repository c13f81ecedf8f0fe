/** Backup names and retention. */
module Backup {
  import opened Types
  import Text

  // ---- Moments ----------------------------------------------------------------------------

  /** A UTC date and time of day. */
  datatype Stamp = Stamp(year: nat, month: nat, day: nat, hour: nat, minute: nat, second: nat)

  predicate Leap(year: nat) {
    year % 4 == 0 && (year % 100 != 0 || year % 400 == 0)
  }

  function DaysInMonth(year: nat, month: nat): nat {
    if month == 2 then (if Leap(year) then 29 else 28)
    else if month in {4, 6, 9, 11} then 30
    else 31
  }

  /** A date and time that exists, in the years 0 to 9999. */
  predicate Valid(s: Stamp) {
    && s.year <= 9999 && 1 <= s.month <= 12 && 1 <= s.day <= DaysInMonth(s.year, s.month)
    && s.hour <= 23 && s.minute <= 59 && s.second <= 59
  }

  function DaysBeforeYear(year: nat): nat {
    if year == 0 then 0 else DaysBeforeYear(year - 1) + if Leap(year - 1) then 366 else 365
  }

  function DaysBeforeMonth(year: nat, month: nat): nat {
    if month <= 1 then 0 else DaysBeforeMonth(year, month - 1) + DaysInMonth(year, month - 1)
  }

  /** Seconds since the start of year 0. */
  function Instant(s: Stamp): int {
    (DaysBeforeYear(s.year) + DaysBeforeMonth(s.year, s.month) + s.day) * 86400
    + s.hour * 3600 + s.minute * 60 + s.second
  }

  /** The Gregorian calendar: a leap year every fourth, but for centuries not divisible by 400. */
  lemma {:induction false} YearStarts(year: nat)
    ensures DaysBeforeYear(year) == 365 * year + (year + 3) / 4 - (year + 99) / 100 + (year + 399) / 400
  {
    if year > 0 {
      YearStarts(year - 1);
      NextYearStarts(year - 1);
    }
  }

  lemma NextYearStarts(n: nat)
    ensures (n + 4) / 4 - (n + 100) / 100 + (n + 400) / 400
            == (n + 3) / 4 - (n + 99) / 100 + (n + 399) / 400 + if Leap(n) then 1 else 0
  {
    NextFourth(n);
    NextCentury(n);
    NextFourthCentury(n);
    Centuries(n);
  }

  // Rounded up, a quotient grows by one exactly after a multiple.

  lemma NextFourth(n: nat)
    ensures (n + 4) / 4 == (n + 3) / 4 + if n % 4 == 0 then 1 else 0
  {
  }

  lemma NextCentury(n: nat)
    ensures (n + 100) / 100 == (n + 99) / 100 + if n % 100 == 0 then 1 else 0
  {
  }

  lemma NextFourthCentury(n: nat)
    ensures (n + 400) / 400 == (n + 399) / 400 + if n % 400 == 0 then 1 else 0
  {
  }

  lemma Centuries(n: nat)
    ensures n % 400 == 0 ==> n % 100 == 0
    ensures n % 100 == 0 ==> n % 4 == 0
  {
    if n % 400 == 0 {
      assert n == 100 * (4 * (n / 400));
    }
    if n % 100 == 0 {
      assert n == 4 * (25 * (n / 100));
    }
  }

  lemma MonthStarts(year: nat)
    ensures var leap := if Leap(year) then 1 else 0;
            && DaysBeforeMonth(year, 1) == 0 && DaysBeforeMonth(year, 2) == 31
            && DaysBeforeMonth(year, 3) == 59 + leap && DaysBeforeMonth(year, 4) == 90 + leap
            && DaysBeforeMonth(year, 5) == 120 + leap && DaysBeforeMonth(year, 6) == 151 + leap
            && DaysBeforeMonth(year, 7) == 181 + leap && DaysBeforeMonth(year, 8) == 212 + leap
            && DaysBeforeMonth(year, 9) == 243 + leap && DaysBeforeMonth(year, 10) == 273 + leap
            && DaysBeforeMonth(year, 11) == 304 + leap && DaysBeforeMonth(year, 12) == 334 + leap
            && DaysBeforeMonth(year, 13) == 365 + leap
  {
    assert DaysBeforeMonth(year, 2) == 31;
    assert DaysBeforeMonth(year, 3) == 31 + DaysInMonth(year, 2);
    assert DaysBeforeMonth(year, 4) == DaysBeforeMonth(year, 3) + 31;
    assert DaysBeforeMonth(year, 5) == DaysBeforeMonth(year, 4) + 30;
    assert DaysBeforeMonth(year, 6) == DaysBeforeMonth(year, 5) + 31;
    assert DaysBeforeMonth(year, 7) == DaysBeforeMonth(year, 6) + 30;
    assert DaysBeforeMonth(year, 8) == DaysBeforeMonth(year, 7) + 31;
    assert DaysBeforeMonth(year, 9) == DaysBeforeMonth(year, 8) + 31;
    assert DaysBeforeMonth(year, 10) == DaysBeforeMonth(year, 9) + 30;
    assert DaysBeforeMonth(year, 11) == DaysBeforeMonth(year, 10) + 31;
    assert DaysBeforeMonth(year, 12) == DaysBeforeMonth(year, 11) + 30;
  }

  // ---- Order of strings -------------------------------------------------------------------

  /** Bytewise order. */
  predicate Below(a: string, b: string) {
    if b == "" then false
    else if a == "" then true
    else a[0] < b[0] || (a[0] == b[0] && Below(a[1..], b[1..]))
  }

  lemma {:induction false} BelowTotal(a: string, b: string)
    ensures Below(a, b) || Below(b, a) || a == b
    ensures !(Below(a, b) && Below(b, a)) && !Below(a, a)
    decreases |a|
  {
    if a != "" {
      if b != "" && a[0] == b[0] {
        BelowTotal(a[1..], b[1..]);
        if a[1..] == b[1..] {
          assert a == [a[0]] + a[1..] && b == [b[0]] + b[1..];
        }
      }
      BelowTotal(a[1..], a[1..]);
    }
  }

  lemma {:induction false} BelowTransitive(a: string, b: string, c: string)
    requires Below(a, b) && Below(b, c)
    ensures Below(a, c)
    decreases |a|
  {
    if a != "" && a[0] == b[0] == c[0] {
      BelowTransitive(a[1..], b[1..], c[1..]);
    }
  }

  lemma {:induction false} BelowConcat(a: string, a': string, b: string, b': string)
    requires |a| == |a'|
    ensures Below(a + b, a' + b') <==> Below(a, a') || (a == a' && Below(b, b'))
  {
    if a == "" {
      assert a + b == b && a' + b' == b';
    } else {
      assert (a + b)[1..] == a[1..] + b && (a' + b')[1..] == a'[1..] + b';
      BelowConcat(a[1..], a'[1..], b, b');
      assert a == [a[0]] + a[1..] && a' == [a'[0]] + a'[1..];
    }
  }

  // ---- Digits -----------------------------------------------------------------------------

  function Digit(n: nat): char
    requires n < 10
  {
    '0' + n as char
  }

  /** `n` with leading zeros. */
  function Digits(n: nat, width: nat): (s: string)
    ensures |s| == width
    ensures Text.AllDigits(s)
  {
    if width == 0 then "" else Digits(n / 10, width - 1) + [Digit(n % 10)]
  }

  function Value(s: string): nat
    requires Text.AllDigits(s)
  {
    if s == "" then 0 else Value(s[..|s| - 1]) * 10 + (s[|s| - 1] - '0') as nat
  }

  function Power10(n: nat): nat {
    if n == 0 then 1 else 10 * Power10(n - 1)
  }

  lemma {:induction false} DigitsValue(n: nat, width: nat)
    requires n < Power10(width)
    ensures Value(Digits(n, width)) == n
  {
    if width > 0 {
      DigitsValue(n / 10, width - 1);
      assert Digits(n, width)[..width - 1] == Digits(n / 10, width - 1);
    }
  }

  lemma {:induction false} DigitsOrder(n: nat, m: nat, width: nat)
    requires n < Power10(width) && m < Power10(width)
    ensures Below(Digits(n, width), Digits(m, width)) <==> n < m
    ensures Digits(n, width) == Digits(m, width) <==> n == m
  {
    if width > 0 {
      DigitsOrder(n / 10, m / 10, width - 1);
      BelowConcat(Digits(n / 10, width - 1), Digits(m / 10, width - 1), [Digit(n % 10)], [Digit(m % 10)]);
      DigitsValue(n, width);
      DigitsValue(m, width);
      OneDigitOrder(n % 10, m % 10);
    }
  }

  lemma OneDigitOrder(a: nat, b: nat)
    requires a < 10 && b < 10
    ensures Below([Digit(a)], [Digit(b)]) <==> a < b
  {
  }

  // ---- Names ------------------------------------------------------------------------------

  const PREFIX := "ludex-"
  const SUFFIX := ".sqlite"

  function Date(s: Stamp): string {
    Digits(s.year, 4) + Digits(s.month, 2) + Digits(s.day, 2)
  }

  function Time(s: Stamp): string {
    Digits(s.hour, 2) + Digits(s.minute, 2) + Digits(s.second, 2)
  }

  function FormatName(s: Stamp): string {
    PREFIX + (Date(s) + "T" + Time(s)) + "Z" + SUFFIX
  }

  predicate EndsWith(s: string, e: string) {
    |e| <= |s| && s[|s| - |e|..] == e
  }

  function ParseStamp(t: string): Option<Stamp> {
    if |t| != 15 || t[8] != 'T' then None
    else
      var year, month, day := t[..4], t[4..6], t[6..8];
      var hour, minute, second := t[9..11], t[11..13], t[13..];
      if && Text.AllDigits(year) && Text.AllDigits(month) && Text.AllDigits(day)
         && Text.AllDigits(hour) && Text.AllDigits(minute) && Text.AllDigits(second)
      then
        var s := Stamp(Value(year), Value(month), Value(day), Value(hour), Value(minute), Value(second));
        if Valid(s) then Some(s) else None
      else None
  }

  function ParseName(name: string): Option<Stamp> {
    if !(PREFIX <= name) then None
    else
      var rest := name[|PREFIX|..];
      if !EndsWith(rest, SUFFIX) then None
      else
        var stamp := rest[..|rest| - |SUFFIX|];
        if !EndsWith(stamp, "Z") then None else ParseStamp(stamp[..|stamp| - 1])
  }

  lemma PowersOfTen()
    ensures Power10(2) == 100 && Power10(4) == 10000
  {
    assert Power10(1) == 10 * Power10(0);
    assert Power10(2) == 10 * Power10(1);
    assert Power10(3) == 10 * Power10(2);
  }

  lemma StampParts(s: Stamp, t: string)
    requires t == Date(s) + "T" + Time(s)
    ensures |t| == 15 && t[8] == 'T'
    ensures t[..4] == Digits(s.year, 4) && t[4..6] == Digits(s.month, 2) && t[6..8] == Digits(s.day, 2)
    ensures t[9..11] == Digits(s.hour, 2) && t[11..13] == Digits(s.minute, 2) && t[13..] == Digits(s.second, 2)
  {
    assert t[..8] == Date(s) && t[9..] == Time(s);
    assert t[4..6] == Date(s)[4..6] && t[6..8] == Date(s)[6..8];
    assert t[9..11] == Time(s)[..2] && t[11..13] == Time(s)[2..4] && t[13..] == Time(s)[4..];
  }

  lemma StampRoundTrip(s: Stamp)
    requires Valid(s)
    ensures ParseStamp(Date(s) + "T" + Time(s)) == Some(s)
  {
    StampParts(s, Date(s) + "T" + Time(s));
    PartsRoundTrip(s);
  }

  lemma PartsRoundTrip(s: Stamp)
    requires Valid(s)
    ensures Value(Digits(s.year, 4)) == s.year && Value(Digits(s.month, 2)) == s.month && Value(Digits(s.day, 2)) == s.day
    ensures Value(Digits(s.hour, 2)) == s.hour && Value(Digits(s.minute, 2)) == s.minute
    ensures Value(Digits(s.second, 2)) == s.second
  {
    PowersOfTen();
    DigitsValue(s.year, 4);
    DigitsValue(s.month, 2);
    DigitsValue(s.day, 2);
    DigitsValue(s.hour, 2);
    DigitsValue(s.minute, 2);
    DigitsValue(s.second, 2);
  }

  /** A name gives back the moment it was made for, to the second. */
  lemma NameRoundTrip(s: Stamp)
    requires Valid(s)
    ensures ParseName(FormatName(s)) == Some(s)
  {
    var t := Date(s) + "T" + Time(s);
    var name := FormatName(s);
    assert name[|PREFIX|..] == t + "Z" + SUFFIX;
    var rest := t + "Z" + SUFFIX;
    assert rest[|rest| - |SUFFIX|..] == SUFFIX && rest[..|rest| - |SUFFIX|] == t + "Z";
    assert (t + "Z")[|t|..] == "Z" && (t + "Z")[..|t|] == t;
    StampRoundTrip(s);
  }

  /** What a name looks like. */
  lemma NameOfOneMoment(s: Stamp)
    requires s == Stamp(2026, 1, 2, 13, 4, 59)
    ensures FormatName(s) == "ludex-20260102T130459Z.sqlite"
  {
    DateOfOneMoment(s);
    TimeOfOneMoment(s);
    NameFromParts(s, "20260102", "130459");
    AssembledName();
  }

  lemma AssembledName()
    ensures PREFIX + ("20260102" + "T" + "130459") + "Z" + SUFFIX == "ludex-20260102T130459Z.sqlite"
  {
  }

  lemma NameFromParts(s: Stamp, date: string, time: string)
    requires Date(s) == date && Time(s) == time
    ensures FormatName(s) == PREFIX + (date + "T" + time) + "Z" + SUFFIX
  {
  }

  lemma DateOfOneMoment(s: Stamp)
    requires s.year == 2026 && s.month == 1 && s.day == 2
    ensures Date(s) == "20260102"
  {
    DigitsOf2026();
    TwoDigits(1);
    TwoDigits(2);
  }

  lemma TimeOfOneMoment(s: Stamp)
    requires s.hour == 13 && s.minute == 4 && s.second == 59
    ensures Time(s) == "130459"
  {
    TwoDigits(13);
    TwoDigits(4);
    TwoDigits(59);
  }

  lemma TwoDigits(n: nat)
    requires n < 100
    ensures Digits(n, 2) == [Digit(n / 10), Digit(n % 10)]
  {
    OneDigit(n / 10);
  }

  lemma OneDigit(n: nat)
    requires n < 10
    ensures Digits(n, 1) == [Digit(n)]
  {
    assert n % 10 == n;
  }

  lemma DigitsOf2026()
    ensures Digits(2026, 4) == "2026"
  {
    assert Digits(2, 1) == [Digit(2)];
    assert Digits(20, 2) == Digits(2, 1) + [Digit(0)];
    assert Digits(202, 3) == Digits(20, 2) + [Digit(2)];
  }

  // ---- Name order is time order -----------------------------------------------------------

  predicate DateBefore(a: Stamp, b: Stamp) {
    a.year < b.year || (a.year == b.year && (a.month < b.month || (a.month == b.month && a.day < b.day)))
  }

  predicate TimeBefore(a: Stamp, b: Stamp) {
    a.hour < b.hour || (a.hour == b.hour && (a.minute < b.minute || (a.minute == b.minute && a.second < b.second)))
  }

  predicate SameDate(a: Stamp, b: Stamp) {
    a.year == b.year && a.month == b.month && a.day == b.day
  }

  lemma DateOrder(a: Stamp, b: Stamp)
    requires Valid(a) && Valid(b)
    ensures Below(Date(a), Date(b)) <==> DateBefore(a, b)
    ensures Date(a) == Date(b) <==> SameDate(a, b)
  {
    PowersOfTen();
    DigitsOrder(a.year, b.year, 4);
    DigitsOrder(a.month, b.month, 2);
    DigitsOrder(a.day, b.day, 2);
    var ym, ym' := Digits(a.year, 4) + Digits(a.month, 2), Digits(b.year, 4) + Digits(b.month, 2);
    BelowConcat(Digits(a.year, 4), Digits(b.year, 4), Digits(a.month, 2), Digits(b.month, 2));
    BelowConcat(ym, ym', Digits(a.day, 2), Digits(b.day, 2));
    EqualParts(Digits(a.year, 4), Digits(b.year, 4), Digits(a.month, 2), Digits(b.month, 2));
    EqualParts(ym, ym', Digits(a.day, 2), Digits(b.day, 2));
  }

  lemma EqualParts(a: string, a': string, b: string, b': string)
    requires |a| == |a'|
    ensures a + b == a' + b' <==> a == a' && b == b'
  {
    if a + b == a' + b' {
      assert a == (a + b)[..|a|] && b == (a + b)[|a|..];
      assert a' == (a' + b')[..|a|] && b' == (a' + b')[|a|..];
    }
  }

  lemma TimeOrder(a: Stamp, b: Stamp)
    requires Valid(a) && Valid(b)
    ensures Below(Time(a), Time(b)) <==> TimeBefore(a, b)
  {
    PowersOfTen();
    DigitsOrder(a.hour, b.hour, 2);
    DigitsOrder(a.minute, b.minute, 2);
    DigitsOrder(a.second, b.second, 2);
    var hm, hm' := Digits(a.hour, 2) + Digits(a.minute, 2), Digits(b.hour, 2) + Digits(b.minute, 2);
    BelowConcat(Digits(a.hour, 2), Digits(b.hour, 2), Digits(a.minute, 2), Digits(b.minute, 2));
    BelowConcat(hm, hm', Digits(a.second, 2), Digits(b.second, 2));
    EqualParts(Digits(a.hour, 2), Digits(b.hour, 2), Digits(a.minute, 2), Digits(b.minute, 2));
  }

  lemma {:induction false} YearsGrow(y: nat, z: nat)
    requires y < z
    ensures DaysBeforeYear(y) + (if Leap(y) then 366 else 365) <= DaysBeforeYear(z)
  {
    if y < z - 1 {
      YearsGrow(y, z - 1);
    }
  }

  lemma {:induction false} MonthsGrow(year: nat, m: nat, n: nat)
    requires 1 <= m < n
    ensures DaysBeforeMonth(year, m) + DaysInMonth(year, m) <= DaysBeforeMonth(year, n)
  {
    if m < n - 1 {
      MonthsGrow(year, m, n - 1);
    }
  }

  function DayNumber(s: Stamp): int {
    DaysBeforeYear(s.year) + DaysBeforeMonth(s.year, s.month) + s.day
  }

  lemma DateBeforeMeansEarlierDay(a: Stamp, b: Stamp)
    requires Valid(a) && Valid(b) && DateBefore(a, b)
    ensures DayNumber(a) < DayNumber(b)
  {
    if a.year < b.year {
      YearsGrow(a.year, b.year);
      MonthsGrow(a.year, a.month, 13);
      MonthStarts(a.year);
    } else if a.month < b.month {
      MonthsGrow(a.year, a.month, b.month);
    }
  }

  lemma EarlierWins(a: Stamp, b: Stamp)
    requires Valid(a) && Valid(b)
    requires DateBefore(a, b) || (SameDate(a, b) && TimeBefore(a, b))
    ensures Instant(a) < Instant(b)
  {
    if DateBefore(a, b) {
      DateBeforeMeansEarlierDay(a, b);
    }
  }

  lemma StampBelow(a: Stamp, b: Stamp)
    requires Valid(a) && Valid(b)
    ensures Below(FormatName(a), FormatName(b)) <==> DateBefore(a, b) || (SameDate(a, b) && TimeBefore(a, b))
  {
    DateOrder(a, b);
    TimeOrder(a, b);
    var s, t := Date(a) + "T" + Time(a), Date(b) + "T" + Time(b);
    var tail := "Z" + SUFFIX;
    assert FormatName(a) == PREFIX + (s + tail) && FormatName(b) == PREFIX + (t + tail);
    BelowConcat(PREFIX, PREFIX, s + tail, t + tail);
    BelowTotal(PREFIX, PREFIX);
    BelowConcat(s, t, tail, tail);
    BelowTotal(tail, tail);
    BelowConcat(Date(a) + "T", Date(b) + "T", Time(a), Time(b));
    BelowConcat(Date(a), Date(b), "T", "T");
    BelowTotal("T", "T");
    EqualParts(Date(a), Date(b), "T", "T");
  }

  /** Descending order of names is descending order of time. */
  lemma NameOrderIsTimeOrder(a: Stamp, b: Stamp)
    requires Valid(a) && Valid(b)
    ensures Below(FormatName(a), FormatName(b)) <==> Instant(a) < Instant(b)
    ensures FormatName(a) == FormatName(b) <==> a == b
  {
    StampBelow(a, b);
    NameRoundTrip(a);
    NameRoundTrip(b);
    if DateBefore(a, b) || (SameDate(a, b) && TimeBefore(a, b)) {
      EarlierWins(a, b);
    } else if DateBefore(b, a) || (SameDate(b, a) && TimeBefore(b, a)) {
      EarlierWins(b, a);
    } else {
      assert a == b;
    }
  }

  // ---- Listing and pruning ----------------------------------------------------------------

  predicate IsBackupName(name: string) {
    PREFIX <= name && EndsWith(name, SUFFIX)
  }

  function Listed(dir: set<string>): set<string> {
    set n | n in dir && IsBackupName(n)
  }

  function Above(dir: set<string>, name: string): set<string> {
    set n | n in dir && IsBackupName(n) && Below(name, n)
  }

  /** A name goes exactly when at least max(1, keep) backup names sort above it. */
  function AfterPrune(dir: set<string>, keep: nat): set<string> {
    set n | n in dir && (!IsBackupName(n) || |Above(dir, n)| < Max(1, keep))
  }

  ghost predicate Descending(names: seq<string>) {
    forall i, j :: 0 <= i < j < |names| ==> Below(names[j], names[i])
  }

  /** `entries` lists the backups of `dir`, newest name first. */
  ghost predicate IsListing(dir: set<string>, entries: seq<string>) {
    Descending(entries) && (forall n :: n in entries <==> n in Listed(dir))
  }

  lemma {:induction false} DistinctCardinality(names: seq<string>, s: set<string>)
    requires Descending(names) && (forall n :: n in s <==> n in names)
    ensures |s| == |names|
  {
    if names == [] {
      assert s == {};
    } else {
      var init, last := names[..|names| - 1], names[|names| - 1];
      assert names == init + [last];
      if last in init {
        BelowTotal(last, last);
      }
      DistinctCardinality(init, s - {last});
    }
  }

  /** The names above an entry are the entries before it. */
  lemma RankOfEntry(dir: set<string>, entries: seq<string>, i: nat)
    requires IsListing(dir, entries) && i < |entries|
    ensures |Above(dir, entries[i])| == i
  {
    var before := entries[..i];
    forall n
      ensures n in Above(dir, entries[i]) <==> n in before
    {
      if n in Above(dir, entries[i]) {
        assert n in Listed(dir);
        var j :| 0 <= j < |entries| && entries[j] == n;
        BelowTotal(entries[i], n);
        assert j < i;
        assert before[j] == n;
      }
      if n in before {
        var j :| 0 <= j < i && entries[j] == n;
        assert n in entries;
        assert n in Listed(dir);
      }
    }
    DistinctCardinality(before, Above(dir, entries[i]));
  }

  /** What is kept are the first max(1, keep) entries of the listing. */
  lemma PruneKeepsFirstEntries(dir: set<string>, entries: seq<string>, keep: nat)
    requires IsListing(dir, entries)
    ensures var k := Min(|entries|, Max(1, keep));
            && IsListing(AfterPrune(dir, keep), entries[..k])
            && |Listed(AfterPrune(dir, keep))| == k
            && AfterPrune(dir, keep) == dir - (set n | n in entries[k..])
  {
    var k := Min(|entries|, Max(1, keep));
    var dir' := AfterPrune(dir, keep);
    forall i | 0 <= i < |entries|
      ensures entries[i] in dir' <==> i < k
    {
      RankOfEntry(dir, entries, i);
      assert entries[i] in entries;
      assert entries[i] in Listed(dir);
    }
    forall n
      ensures n in entries[..k] <==> n in Listed(dir')
    {
      if n in entries[..k] {
        var i :| 0 <= i < k && entries[i] == n;
        assert entries[i] in entries;
        assert n in Listed(dir);
      }
      if n in Listed(dir') {
        assert n in Listed(dir);
        assert n in entries;
        var i :| 0 <= i < |entries| && entries[i] == n;
        assert entries[..k][i] == n;
      }
    }
    DistinctCardinality(entries[..k], Listed(dir'));
    forall n | n in dir
      ensures n in dir' <==> n !in entries[k..]
    {
      if n in entries[k..] {
        var i :| 0 <= i < |entries[k..]| && entries[k..][i] == n;
        assert entries[k + i] == n;
      }
      if n !in dir' {
        assert n in Listed(dir);
        assert n in entries;
        var i :| 0 <= i < |entries| && entries[i] == n;
        assert entries[k..][i - k] == n;
      }
    }
  }

  /** Entries inserted one by one into descending order. */
  function Insert(names: seq<string>, n: string): seq<string> {
    if names == [] then [n]
    else if Below(names[|names| - 1], n) then Insert(names[..|names| - 1], n) + [names[|names| - 1]]
    else names + [n]
  }

  lemma {:induction false} InsertKeepsDescending(names: seq<string>, n: string)
    requires Descending(names) && n !in names
    ensures Descending(Insert(names, n)) && forall m :: m in Insert(names, n) <==> m in names || m == n
  {
    if names != [] {
      var init, last := names[..|names| - 1], names[|names| - 1];
      assert names == init + [last];
      if Below(last, n) {
        InsertKeepsDescending(init, n);
        var front := Insert(init, n);
        forall i | 0 <= i < |front|
          ensures Below(last, front[i])
        {
          assert front[i] in front;
          if front[i] != n {
            var j :| 0 <= j < |init| && init[j] == front[i];
          }
        }
      } else {
        BelowTotal(last, n);
        forall i | 0 <= i < |names|
          ensures Below(n, names[i])
        {
          if i < |names| - 1 {
            BelowTransitive(n, last, names[i]);
          }
        }
      }
    }
  }

  /** A listed backup; the timestamp is missing when the name does not carry one. */
  datatype Entry = Entry(name: string, timestamp: Option<Stamp>)

  function NamesOf(entries: seq<Entry>): (names: seq<string>)
    ensures |names| == |entries| && forall i :: 0 <= i < |names| ==> names[i] == entries[i].name
  {
    seq(|entries|, i requires 0 <= i < |entries| => entries[i].name)
  }

  /** The timestamp is that of the one moment the name was made for, if there is such a moment. */
  ghost predicate Stamped(e: Entry) {
    && (e.timestamp.Some? ==> Valid(e.timestamp.value) && e.name == FormatName(e.timestamp.value))
    && (e.timestamp.None? ==> forall s :: Valid(s) ==> e.name != FormatName(s))
  }

  lemma ParsedIsStamped(name: string)
    ensures Stamped(Entry(name, ParseName(name)))
  {
    if ParseName(name).Some? {
      ParsedNameIsFormatted(name);
    }
    forall s | Valid(s)
      ensures name == FormatName(s) ==> ParseName(name) == Some(s)
    {
      NameRoundTrip(s);
    }
  }

  /** `found` enumerates the directory in whatever order the file system gives. */
  method ListBackups(found: seq<string>, dir: set<string>) returns (entries: seq<Entry>)
    requires forall n :: n in found <==> n in dir
    requires forall i, j :: 0 <= i < j < |found| ==> found[i] != found[j]
    ensures IsListing(dir, NamesOf(entries))
    ensures forall i :: 0 <= i < |entries| ==> Stamped(entries[i])
  {
    var names := SortedNames(found, dir);
    entries := [];
    for i := 0 to |names|
      invariant NamesOf(entries) == names[..i]
      invariant forall k :: 0 <= k < i ==> Stamped(entries[k])
    {
      ParsedIsStamped(names[i]);
      entries := entries + [Entry(names[i], ParseName(names[i]))];
    }
    assert names[..|names|] == names;
  }

  method SortedNames(found: seq<string>, dir: set<string>) returns (entries: seq<string>)
    requires forall n :: n in found <==> n in dir
    requires forall i, j :: 0 <= i < j < |found| ==> found[i] != found[j]
    ensures IsListing(dir, entries)
  {
    entries := [];
    for i := 0 to |found|
      invariant Descending(entries)
      invariant forall n :: n in entries <==> n in found[..i] && IsBackupName(n)
    {
      assert found[..i + 1] == found[..i] + [found[i]];
      if found[i] in found[..i] {
        assert false;
      }
      if !IsBackupName(found[i]) {
        continue;
      }
      InsertKeepsDescending(entries, found[i]);
      entries := Insert(entries, found[i]);
    }
    assert found[..|found|] == found;
  }

  lemma TailIsListed(dir: set<string>, entries: seq<string>, k: nat)
    requires IsListing(dir, entries) && k <= |entries|
    ensures forall n :: n in entries[k..] ==> n in dir
  {
    forall n | n in entries[k..]
      ensures n in dir
    {
      var j :| 0 <= j < |entries| - k && entries[k..][j] == n;
      assert entries[k + j] in entries;
      assert n in Listed(dir);
    }
  }

  class BackupDirectory {
    var names: set<string>

    constructor (names: set<string>)
      ensures this.names == names && fresh(this)
    {
      this.names := names;
    }

    /** `listed` says whether the directory could be read. Names in `vanishing` are removed by
        someone else first; a name in `stuck` cannot be
        removed, which ends the prune. */
    method Prune(found: seq<string>, listed: bool, keep: nat, vanishing: set<string>, stuck: set<string>)
      returns (r: Result<seq<string>>)
      requires forall n :: n in found <==> n in names
      requires forall i, j :: 0 <= i < j < |found| ==> found[i] != found[j]
      modifies this
      ensures AfterPrune(old(names), keep) <= names <= old(names)
      ensures r.Ok? ==> names == AfterPrune(old(names), keep) && Descending(r.value)
                        && forall n :: n in r.value <==> n in old(names) && n !in names
      ensures r.Err? ==> if listed then exists n :: n in stuck && n in names && n !in AfterPrune(old(names), keep)
                         else names == old(names)
      ensures !listed ==> r.Err?
    {
      if !listed {
        return Err(Sql);
      }
      var backups := ListBackups(found, names);
      var entries := NamesOf(backups);
      var k := Min(|entries|, Max(1, keep));
      PruneKeepsFirstEntries(names, entries, keep);
      ghost var before := names;
      var removed := [];
      for i := k to |entries|
        invariant removed == entries[k..i]
        invariant names == before - (set n | n in entries[k..i])
      {
        assert entries[k..i + 1] == entries[k..i] + [entries[i]];
        assert entries[i] in entries && entries[i] in entries[k..] by {
          assert entries[k..][i - k] == entries[i];
        }
        if entries[i] in stuck && entries[i] !in vanishing {
          assert entries[i] in names by {
            if j :| 0 <= j < i - k && entries[k..i][j] == entries[i] {
              BelowTotal(entries[i], entries[k + j]);
            }
            assert entries[i] in Listed(before);
          }
          return Err(Sql);
        }
        names := names - {entries[i]};
        removed := removed + [entries[i]];
      }
      assert entries[k..|entries|] == entries[k..];
      TailIsListed(before, entries, k);
      r := Ok(removed);
    }
  }

  // ---- What pruning keeps -----------------------------------------------------------------

  lemma ListingOf(dir: set<string>) returns (entries: seq<string>)
    ensures IsListing(dir, entries)
  {
    var todo := Listed(dir);
    entries := [];
    while todo != {}
      invariant todo <= Listed(dir) && Descending(entries)
      invariant forall n :: n in entries <==> n in Listed(dir) && n !in todo
      decreases todo
    {
      var n :| n in todo;
      InsertKeepsDescending(entries, n);
      entries := Insert(entries, n);
      todo := todo - {n};
    }
  }

  /** Pruning leaves min(n, max(1, keep)) backups, and pruning again changes nothing. */
  lemma PruneLeavesKeepAndIsIdempotent(dir: set<string>, keep: nat)
    ensures |Listed(AfterPrune(dir, keep))| == Min(|Listed(dir)|, Max(1, keep))
    ensures AfterPrune(AfterPrune(dir, keep), keep) == AfterPrune(dir, keep)
  {
    var entries := ListingOf(dir);
    DistinctCardinality(entries, Listed(dir));
    PruneKeepsFirstEntries(dir, entries, keep);
    var k := Min(|entries|, Max(1, keep));
    PruneKeepsFirstEntries(AfterPrune(dir, keep), entries[..k], keep);
    assert entries[..k][k..] == [];
  }

  lemma NamesAbove(moments: set<Stamp>, s: Stamp, dir: set<string>)
    requires s in moments && forall m :: m in moments ==> Valid(m)
    requires dir == Names(moments)
    ensures Above(dir, FormatName(s)) == Names(set m | m in moments && Instant(s) < Instant(m))
  {
    forall m | m in moments
      ensures IsBackupName(FormatName(m)) && (Below(FormatName(s), FormatName(m)) <==> Instant(s) < Instant(m))
    {
      FormattedIsBackupName(m);
      NameOrderIsTimeOrder(s, m);
    }
  }

  function Names(moments: set<Stamp>): set<string> {
    set m | m in moments :: FormatName(m)
  }

  /** In a directory that also holds other names, a snapshot survives exactly when fewer than
      max(1, keep) snapshots are later and backup names among the others sort above it,
      counted together. */
  lemma PruneKeepsLatestUnlessDisplaced(moments: set<Stamp>, others: set<string>, s: Stamp, keep: nat)
    requires s in moments && (forall m :: m in moments ==> Valid(m)) && Names(moments) !! others
    ensures FormatName(s) in AfterPrune(Names(moments) + others, keep)
            <==> |set m | m in moments && Instant(s) < Instant(m)| + |Above(others, FormatName(s))| < Max(1, keep)
  {
    var later := set m | m in moments && Instant(s) < Instant(m);
    FormattedIsBackupName(s);
    NamesAbove(moments, s, Names(moments));
    assert Above(Names(moments), FormatName(s)) == Names(later);
    assert Above(Names(moments) + others, FormatName(s)) == Names(later) + Above(others, FormatName(s));
    assert Names(later) !! Above(others, FormatName(s));
    ImageCardinality(later);
  }

  /** Among snapshots made by this program alone, exactly the latest survive: one is pruned
      exactly when max(1, keep) others are later. */
  lemma PruneKeepsLatest(moments: set<Stamp>, s: Stamp, keep: nat)
    requires s in moments && forall m :: m in moments ==> Valid(m)
    ensures FormatName(s) in AfterPrune(Names(moments), keep)
            <==> |set m | m in moments && Instant(s) < Instant(m)| < Max(1, keep)
  {
    PruneKeepsLatestUnlessDisplaced(moments, {}, s, keep);
    assert Names(moments) + {} == Names(moments);
    assert Above({}, FormatName(s)) == {};
  }

  lemma FormattedIsBackupName(s: Stamp)
    ensures IsBackupName(FormatName(s))
  {
    var name := FormatName(s);
    assert name[..|PREFIX|] == PREFIX;
    assert name[|name| - |SUFFIX|..] == SUFFIX;
  }

  lemma ImageCardinality(moments: set<Stamp>)
    requires forall m :: m in moments ==> Valid(m)
    ensures |Names(moments)| == |moments|
  {
    var name := (s: Stamp) => FormatName(s);
    forall m, n | m in moments && n in moments && name(m) == name(n)
      ensures m == n
    {
      NameOrderIsTimeOrder(m, n);
    }
    InjectiveImage(name, moments);
    assert Names(moments) == set m | m in moments :: name(m);
  }

  lemma {:induction false} InjectiveImage(f: Stamp -> string, moments: set<Stamp>)
    requires forall m, n :: m in moments && n in moments && f(m) == f(n) ==> m == n
    ensures |set m | m in moments :: f(m)| == |moments|
    decreases moments
  {
    if moments != {} {
      var m :| m in moments;
      InjectiveImage(f, moments - {m});
      assert (set n | n in moments :: f(n)) == (set n | n in moments - {m} :: f(n)) + {f(m)};
    }
  }

  lemma FirstCharacterDecides(s: Stamp, rest: string)
    requires Valid(s) && rest != "" && rest[0] > Digits(s.year, 4)[0]
    ensures Below(FormatName(s), PREFIX + rest)
  {
    var tail := (Date(s) + "T" + Time(s)) + "Z" + SUFFIX;
    assert FormatName(s) == PREFIX + tail;
    BelowConcat(PREFIX, PREFIX, tail, rest);
    assert tail[0] == Digits(s.year, 4)[0];
  }

  /** A name whose stamp starts with a letter sorts above every snapshot, so it is listed as the
      newest and takes the place of one. */
  lemma UnparseableNamesSortFirst(s: Stamp, rest: string)
    requires Valid(s) && rest != "" && rest[0] > '9'
    ensures Below(FormatName(s), PREFIX + rest)
  {
    FirstCharacterDecides(s, rest);
  }

  // ---- Names with an unparseable stamp ----------------------------------------------------

  const EARLIEST := Stamp(0, 1, 1, 0, 0, 0)
  const LATEST := Stamp(9999, 12, 31, 23, 59, 59)

  lemma {:induction false} ValueDigits(s: string)
    requires Text.AllDigits(s)
    ensures Digits(Value(s), |s|) == s
  {
    if s != "" {
      var n := |s| - 1;
      ValueDigits(s[..n]);
      DigitOf(s[n]);
      TenTimes(Value(s[..n]), (s[n] - '0') as nat);
      assert s == s[..n] + [s[n]];
    }
  }

  lemma TenTimes(n: nat, digit: nat)
    requires digit < 10
    ensures (n * 10 + digit) / 10 == n && (n * 10 + digit) % 10 == digit
  {
  }

  lemma DigitOf(c: char)
    requires '0' <= c <= '9'
    ensures (c - '0') as nat < 10 && Digit((c - '0') as nat) == c
  {
  }

  lemma StampFromParts(t: string)
    requires |t| == 15 && t[8] == 'T'
    ensures t == (t[..4] + t[4..6] + t[6..8]) + "T" + (t[9..11] + t[11..13] + t[13..])
  {
  }

  lemma ParsedStampIsFormatted(t: string)
    requires ParseStamp(t).Some?
    ensures var s := ParseStamp(t).value;
            Valid(s) && t == Date(s) + "T" + Time(s)
  {
    StampFromParts(t);
    PartsFromValues(t);
  }

  lemma PartsFromValues(t: string)
    requires ParseStamp(t).Some?
    ensures var s := ParseStamp(t).value;
            && Digits(s.year, 4) == t[..4] && Digits(s.month, 2) == t[4..6] && Digits(s.day, 2) == t[6..8]
            && Digits(s.hour, 2) == t[9..11] && Digits(s.minute, 2) == t[11..13] && Digits(s.second, 2) == t[13..]
  {
    ValueDigits(t[..4]);
    ValueDigits(t[4..6]);
    ValueDigits(t[6..8]);
    ValueDigits(t[9..11]);
    ValueDigits(t[11..13]);
    ValueDigits(t[13..]);
  }

  /** A name that parses is the name made for the moment it parses to. */
  lemma ParsedNameIsFormatted(name: string)
    requires ParseName(name).Some?
    ensures Valid(ParseName(name).value) && name == FormatName(ParseName(name).value)
  {
    var rest := name[|PREFIX|..];
    var stamp := rest[..|rest| - |SUFFIX|];
    var t := stamp[..|stamp| - 1];
    ParsedStampIsFormatted(t);
    assert name == PREFIX + rest && rest == stamp + SUFFIX && stamp == t + "Z";
    assert name == PREFIX + t + "Z" + SUFFIX;
  }

  lemma EarliestFirst(s: Stamp)
    requires Valid(s)
    ensures s == EARLIEST || Below(FormatName(EARLIEST), FormatName(s))
  {
    StampBelow(EARLIEST, s);
  }

  lemma LatestLast(s: Stamp)
    requires Valid(s)
    ensures s == LATEST || Below(FormatName(s), FormatName(LATEST))
  {
    StampBelow(s, LATEST);
  }

  /** Whatever its stamp, a name sorts below every snapshot, now or ever, exactly when it sorts
      below the first one, and above every snapshot exactly when it sorts above the last one. */
  lemma SortsOutsideSnapshotsIff(name: string)
    ensures (forall s :: Valid(s) ==> Below(name, FormatName(s))) <==> Below(name, FormatName(EARLIEST))
    ensures (forall s :: Valid(s) ==> Below(FormatName(s), name)) <==> Below(FormatName(LATEST), name)
  {
    forall s | Valid(s)
      ensures Below(name, FormatName(EARLIEST)) ==> Below(name, FormatName(s))
      ensures Below(FormatName(LATEST), name) ==> Below(FormatName(s), name)
    {
      OutsideOne(name, s);
    }
  }

  lemma OutsideOne(name: string, s: Stamp)
    requires Valid(s)
    ensures Below(name, FormatName(EARLIEST)) ==> Below(name, FormatName(s))
    ensures Below(FormatName(LATEST), name) ==> Below(FormatName(s), name)
  {
    EarliestFirst(s);
    LatestLast(s);
    BelowThrough(name, FormatName(EARLIEST), FormatName(s));
    BelowThrough(FormatName(s), FormatName(LATEST), name);
  }

  lemma BelowThrough(a: string, b: string, c: string)
    ensures Below(a, b) && (b == c || Below(b, c)) ==> Below(a, c)
    ensures (a == b || Below(a, b)) && Below(b, c) ==> Below(a, c)
  {
    if Below(a, b) && Below(b, c) {
      BelowTransitive(a, b, c);
    }
  }

  /** Once a name cannot be parsed, no later one in the list can. */
  ghost predicate UnparseableLast(entries: seq<string>) {
    forall i, j :: 0 <= i < j < |entries| && ParseName(entries[i]).None? ==> ParseName(entries[j]).None?
  }

  ghost predicate IsOldest(dir: set<string>, s: Stamp) {
    && Valid(s) && FormatName(s) in dir
    && forall n :: n in Listed(dir) && ParseName(n).Some? ==> Instant(s) <= Instant(ParseName(n).value)
  }

  /** In a directory with a snapshot, names that cannot be parsed are listed last if and only if
      each sorts below the oldest snapshot. */
  lemma UnparseableListedLastIff(dir: set<string>, entries: seq<string>, oldest: Stamp)
    requires IsListing(dir, entries) && IsOldest(dir, oldest)
    ensures UnparseableLast(entries)
            <==> forall n :: n in Listed(dir) && ParseName(n).None? ==> Below(n, FormatName(oldest))
  {
    if UnparseableLast(entries) {
      forall n | n in Listed(dir) && ParseName(n).None?
        ensures Below(n, FormatName(oldest))
      {
        ListedAfterOldest(dir, entries, oldest, n);
      }
    }
    if forall n :: n in Listed(dir) && ParseName(n).None? ==> Below(n, FormatName(oldest)) {
      forall i, j | 0 <= i < j < |entries| && ParseName(entries[i]).None?
        ensures ParseName(entries[j]).None?
      {
        assert entries[i] in entries && entries[j] in entries;
        assert entries[i] in Listed(dir) && entries[j] in Listed(dir);
        AfterUnparseable(dir, oldest, entries[i], entries[j]);
      }
    }
  }

  lemma ListedAfterOldest(dir: set<string>, entries: seq<string>, oldest: Stamp, n: string)
    requires IsListing(dir, entries) && IsOldest(dir, oldest) && UnparseableLast(entries)
    requires n in Listed(dir) && ParseName(n).None?
    ensures Below(n, FormatName(oldest))
  {
    FormattedIsBackupName(oldest);
    NameRoundTrip(oldest);
    assert n in entries && FormatName(oldest) in entries by {
      assert FormatName(oldest) in Listed(dir);
    }
    var i :| 0 <= i < |entries| && entries[i] == n;
    var j :| 0 <= j < |entries| && entries[j] == FormatName(oldest);
    assert j < i;
  }

  lemma AfterUnparseable(dir: set<string>, oldest: Stamp, n: string, m: string)
    requires IsOldest(dir, oldest) && m in Listed(dir)
    requires Below(n, FormatName(oldest)) && Below(m, n)
    ensures ParseName(m).None?
  {
    if ParseName(m).Some? {
      var s := ParseName(m).value;
      ParsedNameIsFormatted(m);
      NameOrderIsTimeOrder(s, oldest);
      BelowTransitive(m, n, FormatName(oldest));
      assert false;
    }
  }

  lemma NineIsBackupName()
    ensures IsBackupName("ludex-9.sqlite") && ParseName("ludex-9.sqlite").None?
    ensures "ludex-9.sqlite" == PREFIX + "9.sqlite"
  {
    var name := "ludex-9.sqlite";
    assert name[..|PREFIX|] == PREFIX && name[|name| - |SUFFIX|..] == SUFFIX;
    var rest := name[|PREFIX|..];
    assert rest == "9.sqlite";
    assert rest[..|rest| - |SUFFIX|] == "9";
  }

  /** A name that begins with a digit, cannot be parsed and sorts above every snapshot of 2026. */
  lemma DigitLedNameSortsFirst(s: Stamp)
    requires Valid(s) && s.year == 2026
    ensures IsBackupName("ludex-9.sqlite") && ParseName("ludex-9.sqlite").None?
    ensures Below(FormatName(s), "ludex-9.sqlite")
  {
    NineIsBackupName();
    DigitsOf2026();
    FirstCharacterDecides(s, "9.sqlite");
  }

  // ---- Which files are touched ------------------------------------------------------------

  lemma BackupNameForm(name: string)
    ensures IsBackupName(name) <==> exists middle :: name == "ludex-" + middle + ".sqlite"
  {
    if IsBackupName(name) {
      var rest := name[|PREFIX|..];
      assert name == PREFIX + rest;
      SuffixBeyondPrefix(name);
      assert rest == rest[..|rest| - |SUFFIX|] + SUFFIX;
      assert name == "ludex-" + rest[..|rest| - |SUFFIX|] + ".sqlite";
    }
    if middle :| name == "ludex-" + middle + ".sqlite" {
      assert name[..|PREFIX|] == PREFIX;
      assert name[|name| - |SUFFIX|..] == SUFFIX;
    }
  }

  /** Prefix and suffix cannot overlap: there is no dot in the prefix. */
  lemma SuffixBeyondPrefix(name: string)
    requires IsBackupName(name)
    ensures |name| >= |PREFIX| + |SUFFIX|
  {
    assert name[|name| - |SUFFIX|..][0] == '.';
    assert forall i :: 0 <= i < |PREFIX| ==> name[i] == PREFIX[i] != '.';
  }

  /** A file is listed exactly when its name is `ludex-`, anything, `.sqlite`; no other file is
      ever pruned. */
  lemma OnlyBackupsAreTouched(dir: set<string>, keep: nat, name: string)
    requires name in dir
    ensures name in Listed(dir) <==> exists middle :: name == "ludex-" + middle + ".sqlite"
    ensures (forall middle :: name != "ludex-" + middle + ".sqlite") ==> name in AfterPrune(dir, keep)
  {
    BackupNameForm(name);
  }
}
