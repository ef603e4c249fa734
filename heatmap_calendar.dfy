/** The month grid of the sentiment-history calendar: grouping the history days
    into months, padding each month to the weekday of its first day, the month
    navigation and the day-selection guard. */
module HeatmapCalendar {
  import opened Wrappers
  import opened Types
  import Bands

  /** `getLevel`: the calendar cell's band, the first whose bound reaches the score. */
  method GetLevel(score: real) returns (band: nat)
    ensures band == Bands.FirstBand(Bands.LevelMaxes, score)
    ensures band < |Bands.LevelMaxes|
    ensures forall j :: 0 <= j < band ==> score > Bands.LevelMaxes[j] as real
    ensures score <= Bands.LevelMaxes[band] as real || band == |Bands.LevelMaxes| - 1
    ensures score > 100.0 ==> band == |Bands.LevelMaxes| - 1
  {
    band := Bands.Scan(Bands.LevelMaxes, score);
  }

  // ---------------------------------------------------------------------------
  // Date keys
  // ---------------------------------------------------------------------------

  predicate IsDigit(c: char) {
    '0' <= c <= '9'
  }

  function DigitVal(c: char): (r: int)
    requires IsDigit(c)
    ensures 0 <= r <= 9
  {
    c as int - '0' as int
  }

  function DigitChar(n: int): (c: char)
    requires 0 <= n <= 9
    ensures IsDigit(c) && DigitVal(c) == n
  {
    ('0' as int + n) as char
  }

  /** `date.slice(0, 7)`: the "YYYY-MM" month key of a date string. */
  function KeyOfDate(date: string): (r: string)
    ensures |r| <= 7
    ensures |date| >= 7 ==> r == date[..7]
    ensures |date| < 7 ==> r == date
  {
    if |date| <= 7 then date else date[..7]
  }

  function MonthKey(d: DayScore): string {
    KeyOfDate(d.date)
  }

  predicate AllDigits(s: string) {
    forall i :: 0 <= i < |s| ==> IsDigit(s[i])
  }

  /** `Number` of a string of decimal digits. */
  function ParseDigits(s: string): nat
    requires AllDigits(s)
  {
    if s == [] then 0 else 10 * ParseDigits(s[..|s| - 1]) + DigitVal(s[|s| - 1])
  }

  /** A "YYYY-MM" key the source's `Date` arithmetic handles as a plain calendar
      month: a four-digit year from 1000 and a month 01..12. */
  predicate ValidKey(key: string) {
    && |key| == 7
    && AllDigits(key[..4]) && key[0] != '0'
    && key[4] == '-'
    && AllDigits(key[5..7])
    && 1 <= ParseDigits(key[5..7]) <= 12
  }

  /** The history days' dates all start with a valid month key. */
  predicate ValidDates(days: seq<DayScore>) {
    forall k :: 0 <= k < |days| ==> ValidKey(MonthKey(days[k]))
  }

  /** `key.split('-').map(Number)`, year part. */
  function YearOf(key: string): nat
    requires ValidKey(key)
  {
    ParseDigits(key[..4])
  }

  /** `key.split('-').map(Number)`, month part, 1-based. */
  function MonthOf(key: string): (m: nat)
    requires ValidKey(key)
    ensures 1 <= m <= 12
  {
    ParseDigits(key[5..7])
  }

  /** `String(n)`: the decimal digits of `n`. */
  function ShowNat(n: nat): string
    decreases n
  {
    if n < 10 then [DigitChar(n)] else ShowNat(n / 10) + [DigitChar(n % 10)]
  }

  /** `String(n).padStart(2, '0')`. */
  function Pad2(n: nat): string {
    if n < 10 then ['0', DigitChar(n)] else ShowNat(n)
  }

  /** The template string `${y}-${pad(m)}-${pad(day)}` the grid looks days up by. */
  function DateStr(y: nat, m: nat, day: nat): string {
    ShowNat(y) + "-" + Pad2(m) + "-" + Pad2(day)
  }

  lemma ShowStep(q: nat, e: int)
    requires q >= 1 && 0 <= e <= 9
    ensures ShowNat(10 * q + e) == ShowNat(q) + [DigitChar(e)]
  {
    assert (10 * q + e) / 10 == q && (10 * q + e) % 10 == e;
  }

  lemma {:induction false} ParsePositive(s: string)
    requires AllDigits(s) && s != [] && s[0] != '0'
    ensures ParseDigits(s) >= 1
    decreases |s|
  {
    if |s| > 1 {
      ParsePositive(s[..|s| - 1]);
    }
  }

  /** `String(Number(s)) == s` for a digit string without a leading zero. */
  lemma {:induction false} ShowParse(s: string)
    requires AllDigits(s) && s != [] && s[0] != '0'
    ensures ShowNat(ParseDigits(s)) == s
    decreases |s|
  {
    var init, e := s[..|s| - 1], DigitVal(s[|s| - 1]);
    if init == [] {
      assert s == [DigitChar(e)];
    } else {
      ShowParse(init);
      ParsePositive(init);
      ShowStep(ParseDigits(init), e);
      assert s == init + [DigitChar(e)];
    }
  }

  /** `padStart(2, '0')` of a number below 100 has two characters. */
  lemma Pad2Length(n: nat)
    requires n < 100
    ensures |Pad2(n)| == 2
  {
    if n >= 10 {
      var q, e := n / 10, n % 10;
      assert n == 10 * q + e;
      ShowStep(q, e);
    }
  }

  /** Re-formatting the parsed month gives back its two key characters. */
  lemma PadMonth(key: string)
    requires ValidKey(key)
    ensures Pad2(MonthOf(key)) == key[5..7]
  {
    var mm := key[5..7];
    assert mm[..1] == [mm[0]];
    assert mm[..1][..0] == [];
    assert ParseDigits(mm[..1]) == DigitVal(mm[0]);
    if mm[0] == '0' {
      assert MonthOf(key) == DigitVal(mm[1]);
      assert Pad2(MonthOf(key)) == ['0', DigitChar(DigitVal(mm[1]))];
    } else {
      ShowParse(mm);
    }
  }

  /** Each date the grid looks up for a month falls back into that month's key. */
  lemma DateStrKey(key: string, day: nat)
    requires ValidKey(key) && day < 100
    ensures KeyOfDate(DateStr(YearOf(key), MonthOf(key), day)) == key
  {
    ShowParse(key[..4]);
    PadMonth(key);
    Pad2Length(day);
    var s := DateStr(YearOf(key), MonthOf(key), day);
    assert s == key[..4] + "-" + key[5..7] + "-" + Pad2(day);
    assert s[..7] == key[..4] + "-" + key[5..7];
    assert key == key[..4] + "-" + key[5..7];
  }

  // ---------------------------------------------------------------------------
  // Gregorian calendar
  // ---------------------------------------------------------------------------

  predicate IsLeap(y: int) {
    (y % 4 == 0 && y % 100 != 0) || y % 400 == 0
  }

  /** `new Date(y, m, 0).getDate()`: the length of month `m` of year `y`. */
  function DaysInMonth(y: int, m: int): (r: int)
    requires 1 <= m <= 12
    ensures 28 <= r <= 31
    ensures r == 29 <==> m == 2 && IsLeap(y)
  {
    if m == 2 then (if IsLeap(y) then 29 else 28)
    else if m == 4 || m == 6 || m == 9 || m == 11 then 30
    else 31
  }

  /** Days from a fixed origin contributed by the years up to `y`, leap days included. */
  function LeapDays(y: int): int {
    y + y / 4 - y / 100 + y / 400
  }

  /** Sakamoto's month offsets. */
  function MonthOffset(m: int): int
    requires 1 <= m <= 12
  {
    [0, 3, 2, 5, 0, 3, 5, 1, 4, 6, 2, 4][m - 1]
  }

  /** `new Date(y, m - 1, d).getDay()`: the weekday of a Gregorian date, 0 for
      Sunday, by Sakamoto's method (January and February count with the year before). */
  function Weekday(y: int, m: int, d: int): (r: int)
    requires 1 <= m <= 12
    ensures 0 <= r < 7
  {
    var yy := if m < 3 then y - 1 else y;
    (LeapDays(yy) + MonthOffset(m) + d) % 7
  }

  lemma Div4(y: int)
    ensures y / 4 - (y - 1) / 4 == if y % 4 == 0 then 1 else 0
  {
  }

  lemma Div100(y: int)
    ensures y / 100 - (y - 1) / 100 == if y % 100 == 0 then 1 else 0
  {
  }

  lemma Div400(y: int)
    ensures y / 400 - (y - 1) / 400 == if y % 400 == 0 then 1 else 0
  {
  }

  lemma Mod400(y: int)
    requires y % 400 == 0
    ensures y % 100 == 0
  {
    var q := y / 400;
    assert y == 100 * (4 * q);
  }

  lemma Mod100(y: int)
    requires y % 100 == 0
    ensures y % 4 == 0
  {
    var q := y / 100;
    assert y == 4 * (25 * q);
  }

  /** A leap year is one day longer than a common year. */
  lemma LeapDaysStep(y: int)
    ensures LeapDays(y) - LeapDays(y - 1) == if IsLeap(y) then 2 else 1
  {
    Div4(y);
    Div100(y);
    Div400(y);
    if y % 400 == 0 {
      Mod400(y);
      Mod100(y);
    } else if y % 100 == 0 {
      Mod100(y);
    }
  }

  lemma ModShift(a: int, b: int, c: int)
    requires (b - a) % 7 == c % 7
    ensures b % 7 == (a % 7 + c) % 7
  {
    var qa, qd, qc := a / 7, (b - a) / 7, c / 7;
    assert a == 7 * qa + a % 7;
    assert b - a == 7 * qd + c % 7;
    assert c == 7 * qc + c % 7;
    assert b == 7 * (qa + qd - qc) + (a % 7 + c);
    ModOfShift(a % 7 + c, qa + qd - qc);
  }

  lemma ModOfShift(x: int, k: int)
    ensures (7 * k + x) % 7 == x % 7
  {
  }

  /** The offsets advance by the month's length modulo 7 within a Sakamoto year. */
  lemma OffsetStep(y: int, m: int)
    requires 1 <= m < 12 && m != 2
    ensures (MonthOffset(m + 1) - MonthOffset(m)) % 7 == DaysInMonth(y, m) % 7
  {
  }

  lemma WeekdayWithinYear(y: int, m: int)
    requires 1 <= m < 12 && m != 2
    ensures Weekday(y, m + 1, 1) == (Weekday(y, m, 1) + DaysInMonth(y, m)) % 7
  {
    var yy := if m < 3 then y - 1 else y;
    assert Weekday(y, m, 1) == (LeapDays(yy) + MonthOffset(m) + 1) % 7;
    assert Weekday(y, m + 1, 1) == (LeapDays(yy) + MonthOffset(m + 1) + 1) % 7;
    OffsetStep(y, m);
    ModShift(LeapDays(yy) + MonthOffset(m) + 1, LeapDays(yy) + MonthOffset(m + 1) + 1, DaysInMonth(y, m));
  }

  lemma WeekdayFebruary(y: int)
    ensures Weekday(y, 3, 1) == (Weekday(y, 2, 1) + DaysInMonth(y, 2)) % 7
  {
    assert Weekday(y, 2, 1) == (LeapDays(y - 1) + 3 + 1) % 7;
    assert Weekday(y, 3, 1) == (LeapDays(y) + 2 + 1) % 7;
    LeapDaysStep(y);
    ModShift(LeapDays(y - 1) + 3 + 1, LeapDays(y) + 2 + 1, DaysInMonth(y, 2));
  }

  lemma WeekdayDecember(y: int)
    ensures Weekday(y + 1, 1, 1) == (Weekday(y, 12, 1) + DaysInMonth(y, 12)) % 7
  {
    assert Weekday(y, 12, 1) == (LeapDays(y) + 4 + 1) % 7;
    assert Weekday(y + 1, 1, 1) == (LeapDays(y) + 0 + 1) % 7;
    ModShift(LeapDays(y) + 4 + 1, LeapDays(y) + 0 + 1, 31);
  }

  /** A month starts on the weekday after the last day of the month before it,
      so consecutive month grids continue each other. */
  lemma NextMonthWeekday(y: int, m: int)
    requires 1 <= m <= 12
    ensures m < 12 ==> Weekday(y, m + 1, 1) == (Weekday(y, m, 1) + DaysInMonth(y, m)) % 7
    ensures m == 12 ==> Weekday(y + 1, 1, 1) == (Weekday(y, m, 1) + DaysInMonth(y, m)) % 7
  {
    if m == 2 {
      WeekdayFebruary(y);
    } else if m == 12 {
      WeekdayDecember(y);
    } else {
      WeekdayWithinYear(y, m);
    }
  }

  /** Reference points: 1 January 2000 was a Saturday and 1 March 2024 a Friday. */
  lemma WeekdayAnchors()
    ensures Weekday(2000, 1, 1) == 6
    ensures Weekday(2024, 3, 1) == 5
  {
  }

  // ---------------------------------------------------------------------------
  // Grouping
  // ---------------------------------------------------------------------------

  /** The Map's keys: the distinct month keys of `days` in order of first appearance. */
  function MonthKeys(days: seq<DayScore>): seq<string> {
    if days == [] then []
    else
      var r0 := MonthKeys(days[..|days| - 1]);
      var key := MonthKey(days[|days| - 1]);
      if key in r0 then r0 else r0 + [key]
  }

  /** Every day's month is listed. */
  lemma {:induction false} MonthKeysCover(days: seq<DayScore>)
    ensures forall k :: 0 <= k < |days| ==> MonthKey(days[k]) in MonthKeys(days)
  {
    if days != [] {
      var init := days[..|days| - 1];
      MonthKeysCover(init);
      forall k | 0 <= k < |init| ensures MonthKey(days[k]) in MonthKeys(days) {
        assert days[k] == init[k];
      }
    }
  }

  /** Only months of the days are listed, so valid dates give valid keys. */
  lemma {:induction false} MonthKeysValid(days: seq<DayScore>)
    requires ValidDates(days)
    ensures forall i :: 0 <= i < |MonthKeys(days)| ==> ValidKey(MonthKeys(days)[i])
  {
    if days != [] {
      var init := days[..|days| - 1];
      assert ValidDates(init) by {
        forall k | 0 <= k < |init| ensures ValidKey(MonthKey(init[k])) {
          assert init[k] == days[k];
        }
      }
      MonthKeysValid(init);
      assert ValidKey(MonthKey(days[|days| - 1]));
    }
  }

  /** The Map's array for `key`: the days of that month, in input order. */
  function DaysOf(days: seq<DayScore>, key: string): (r: seq<DayScore>)
    ensures |r| <= |days|
  {
    if days == [] then []
    else
      var d := days[|days| - 1];
      DaysOf(days[..|days| - 1], key) + (if MonthKey(d) == key then [d] else [])
  }

  /** `new Map(monthDays.map(d => [d.date, d]))`: a later day replaces an earlier one with the same date. */
  function DayMap(ds: seq<DayScore>): map<string, DayScore> {
    if ds == [] then map[] else DayMap(ds[..|ds| - 1])[ds[|ds| - 1].date := ds[|ds| - 1]]
  }

  /** The reference for a lookup: the last day of `ds` dated `date`, if any. */
  function LastDated(ds: seq<DayScore>, date: string): (r: Option<DayScore>)
    ensures r.None? <==> forall k :: 0 <= k < |ds| ==> ds[k].date != date
    ensures r.Some? ==> r.value in ds && r.value.date == date
  {
    if ds == [] then None
    else if ds[|ds| - 1].date == date then Some(ds[|ds| - 1])
    else LastDated(ds[..|ds| - 1], date)
  }

  datatype MonthGroup = MonthGroup(key: string, year: nat, month: nat, days: seq<Option<DayScore>>)

  /** The padded cells of a month: `Weekday` empty cells, then one cell per day. */
  function Cells(y: nat, m: nat, monthDays: seq<DayScore>): seq<Option<DayScore>>
    requires 1 <= m <= 12
  {
    var dayMap := DayMap(monthDays);
    var dim := DaysInMonth(y, m);
    seq(Weekday(y, m, 1), _ => None)
      + seq(dim, i requires 0 <= i < dim => Lookup(dayMap, DateStr(y, m, i + 1)))
  }

  function GroupOf(days: seq<DayScore>, key: string): MonthGroup
    requires ValidKey(key)
  {
    var y, m := YearOf(key), MonthOf(key);
    MonthGroup(key, y, m, Cells(y, m, DaysOf(days, key)))
  }

  function GroupByMonth(days: seq<DayScore>): seq<MonthGroup>
    requires ValidDates(days)
  {
    MonthKeysValid(days);
    var keys := MonthKeys(days);
    seq(|keys|, i requires 0 <= i < |keys| => GroupOf(days, keys[i]))
  }

  /** Each listed key is the month of some day. */
  lemma {:induction false} MonthKeysFromDays(days: seq<DayScore>, i: nat)
    requires i < |MonthKeys(days)|
    ensures exists k :: 0 <= k < |days| && MonthKey(days[k]) == MonthKeys(days)[i]
  {
    var n := |days| - 1;
    if i < |MonthKeys(days[..n])| {
      MonthKeysFromDays(days[..n], i);
      var k :| 0 <= k < n && MonthKey(days[..n][k]) == MonthKeys(days[..n])[i];
      assert days[k] == days[..n][k];
    } else {
      assert MonthKey(days[n]) == MonthKeys(days)[i];
    }
  }

  /** A found day is the last of its date: no later day has that date. */
  lemma {:induction false} LastDatedIsLast(ds: seq<DayScore>, date: string)
    requires LastDated(ds, date).Some?
    ensures exists k :: 0 <= k < |ds| && ds[k] == LastDated(ds, date).value &&
                        (forall j :: k < j < |ds| ==> ds[j].date != date)
  {
    var n := |ds| - 1;
    if ds[n].date != date {
      LastDatedIsLast(ds[..n], date);
      var k :| 0 <= k < n && ds[..n][k] == LastDated(ds[..n], date).value &&
        forall j :: k < j < n ==> ds[..n][j].date != date;
      assert ds[k] == ds[..n][k];
      forall j | k < j < |ds|
        ensures ds[j].date != date
      {
        if j < n {
          assert ds[j] == ds[..n][j];
        }
      }
    }
  }

  lemma {:induction false} NoKeyNoDays(days: seq<DayScore>, key: string)
    requires key !in MonthKeys(days)
    ensures DaysOf(days, key) == []
  {
    if days != [] {
      NoKeyNoDays(days[..|days| - 1], key);
    }
  }

  /** The second half of `groupByMonth` for one month: the leading empty cells,
      then a lookup by date string for each day of the month. */
  method FillMonth(y: nat, m: nat, monthDays: seq<DayScore>) returns (padded: seq<Option<DayScore>>)
    requires 1 <= m <= 12
    ensures padded == Cells(y, m, monthDays)
  {
    var leadingPad := Weekday(y, m, 1);
    padded := seq(leadingPad, _ => None);
    var dayMap := DayMap(monthDays);
    var daysInMonth := DaysInMonth(y, m);
    for day := 1 to daysInMonth + 1
      invariant |padded| == leadingPad + day - 1
      invariant forall i :: 0 <= i < leadingPad ==> padded[i] == None
      invariant forall i :: leadingPad <= i < |padded| ==> padded[i] == Lookup(dayMap, DateStr(y, m, i - leadingPad + 1))
    {
      padded := padded + [Lookup(dayMap, DateStr(y, m, day))];
    }
    var cells := Cells(y, m, monthDays);
    assert |cells| == leadingPad + daysInMonth;
    forall i | 0 <= i < |cells|
      ensures padded[i] == cells[i]
    {
      if i >= leadingPad {
        assert cells[i] == Lookup(dayMap, DateStr(y, m, i - leadingPad + 1));
      }
    }
  }

  lemma BucketStep(days: seq<DayScore>, i: nat)
    requires i < |days|
    ensures var key := MonthKey(days[i]);
      && MonthKeys(days[..i + 1]) == (if key in MonthKeys(days[..i]) then MonthKeys(days[..i]) else MonthKeys(days[..i]) + [key])
      && DaysOf(days[..i + 1], key) == DaysOf(days[..i], key) + [days[i]]
      && forall k :: k != key ==> DaysOf(days[..i + 1], k) == DaysOf(days[..i], k)
  {
    assert days[..i + 1][..i] == days[..i];
  }

  /** The bucket loop's state after the first `i` days. */
  predicate BucketedUpTo(days: seq<DayScore>, i: nat, keys: seq<string>, byKey: map<string, seq<DayScore>>)
    requires i <= |days|
  {
    && keys == MonthKeys(days[..i])
    && byKey.Keys == (set k | k in keys)
    && forall k :: k in byKey ==> byKey[k] == DaysOf(days[..i], k)
  }

  /** One turn of the bucket loop: a new key is listed and given an empty
      bucket, then the day joins its key's bucket. */
  lemma BucketTurn(days: seq<DayScore>, i: nat, keys: seq<string>, byKey: map<string, seq<DayScore>>)
    requires i < |days| && BucketedUpTo(days, i, keys, byKey)
    ensures var key := MonthKey(days[i]);
      var keys' := if key in byKey then keys else keys + [key];
      var bucket := if key in byKey then byKey[key] else [];
      BucketedUpTo(days, i + 1, keys', byKey[key := bucket + [days[i]]])
  {
    var key := MonthKey(days[i]);
    BucketStep(days, i);
    if key !in byKey {
      NoKeyNoDays(days[..i], key);
    }
  }

  /** The first half of `groupByMonth`: the insertion-ordered `Map` from month
      key to that month's days, as its key order and its contents. */
  method Bucket(days: seq<DayScore>) returns (keys: seq<string>, byKey: map<string, seq<DayScore>>)
    ensures keys == MonthKeys(days)
    ensures forall k :: k in byKey <==> k in keys
    ensures forall k :: k in byKey ==> byKey[k] == DaysOf(days, k)
  {
    keys := [];
    byKey := map[];
    for i := 0 to |days|
      invariant BucketedUpTo(days, i, keys, byKey)
    {
      var key := MonthKey(days[i]);
      BucketTurn(days, i, keys, byKey);
      if key !in byKey {
        byKey := byKey[key := []];
        keys := keys + [key];
      }
      byKey := byKey[key := byKey[key] + [days[i]]];
    }
    assert days[..|days|] == days;
  }

  /** One group of the second loop: the key's parsed year and month and its padded cells. */
  method MonthGroupOf(ghost days: seq<DayScore>, key: string, monthDays: seq<DayScore>) returns (group: MonthGroup)
    requires ValidKey(key) && monthDays == DaysOf(days, key)
    ensures group == GroupOf(days, key)
  {
    var y, m := YearOf(key), MonthOf(key);
    var padded := FillMonth(y, m, monthDays);
    group := MonthGroup(key, y, m, padded);
  }

  /** The second loop of `groupByMonth`: one padded group per bucketed key, in key order. */
  method GroupAll(ghost days: seq<DayScore>, keys: seq<string>, byKey: map<string, seq<DayScore>>) returns (groups: seq<MonthGroup>)
    requires forall i :: 0 <= i < |keys| ==> ValidKey(keys[i]) && keys[i] in byKey && byKey[keys[i]] == DaysOf(days, keys[i])
    ensures |groups| == |keys|
    ensures forall i :: 0 <= i < |keys| ==> groups[i] == GroupOf(days, keys[i])
  {
    groups := [];
    for g := 0 to |keys|
      invariant |groups| == g
      invariant forall i :: 0 <= i < g ==> groups[i] == GroupOf(days, keys[i])
    {
      var key := keys[g];
      var group := MonthGroupOf(days, key, byKey[key]);
      groups := groups + [group];
    }
  }

  /** `groupByMonth`: the bucket loop over the days, then one padded group per key. */
  method GroupByMonthLoop(days: seq<DayScore>) returns (groups: seq<MonthGroup>)
    requires ValidDates(days)
    ensures groups == GroupByMonth(days)
  {
    var keys, byKey := Bucket(days);
    MonthKeysValid(days);
    groups := GroupAll(days, keys, byKey);
    assert groups == GroupByMonth(days);
  }

  // ---------------------------------------------------------------------------
  // Properties of the grouping
  // ---------------------------------------------------------------------------

  lemma {:induction false} MonthKeysDistinct(days: seq<DayScore>)
    ensures forall i, j :: 0 <= i < j < |MonthKeys(days)| ==> MonthKeys(days)[i] != MonthKeys(days)[j]
  {
    if days != [] {
      MonthKeysDistinct(days[..|days| - 1]);
    }
  }

  /** A key listed before another first appears before any day of the later key. */
  lemma {:induction false} MonthKeysFirstAppearance(days: seq<DayScore>, i: nat, j: nat, p: nat)
    requires i < j < |MonthKeys(days)| && p < |days| && MonthKey(days[p]) == MonthKeys(days)[j]
    ensures exists q :: 0 <= q < p && MonthKey(days[q]) == MonthKeys(days)[i]
  {
    var n := |days| - 1;
    var init := days[..n];
    var keys := MonthKeys(days);
    assert MonthKeys(init) <= keys;
    if p < n {
      assert init[p] == days[p];
      if j < |MonthKeys(init)| {
        MonthKeysFirstAppearance(init, i, j, p);
        var q :| 0 <= q < p && MonthKey(init[q]) == MonthKeys(init)[i];
        assert days[q] == init[q];
      } else {
        MonthKeysCover(init);
        assert false;
      }
    } else {
      assert i < |MonthKeys(init)|;
      MonthKeysFromDays(init, i);
      var q :| 0 <= q < |init| && MonthKey(init[q]) == MonthKeys(init)[i];
      assert days[q] == init[q];
    }
  }

  /** The groups are the distinct month keys, in order of first appearance, and
      every day's month has a group. */
  lemma GroupKeys(days: seq<DayScore>)
    requires ValidDates(days)
    ensures |GroupByMonth(days)| == |MonthKeys(days)|
    ensures forall i :: 0 <= i < |GroupByMonth(days)| ==> GroupByMonth(days)[i].key == MonthKeys(days)[i]
    ensures forall i, j :: 0 <= i < j < |GroupByMonth(days)| ==> GroupByMonth(days)[i].key != GroupByMonth(days)[j].key
    ensures forall k :: 0 <= k < |days| ==> exists i :: 0 <= i < |GroupByMonth(days)| && GroupByMonth(days)[i].key == MonthKey(days[k])
  {
    MonthKeysDistinct(days);
    MonthKeysCover(days);
    var gs := GroupByMonth(days);
    var keys := MonthKeys(days);
    forall k | 0 <= k < |days|
      ensures exists i :: 0 <= i < |gs| && gs[i].key == MonthKey(days[k])
    {
      var i :| 0 <= i < |keys| && keys[i] == MonthKey(days[k]);
      assert gs[i].key == keys[i];
    }
  }

  lemma {:induction false} DayMapIsLastDated(ds: seq<DayScore>, date: string)
    ensures Lookup(DayMap(ds), date) == LastDated(ds, date)
  {
    if ds != [] {
      DayMapIsLastDated(ds[..|ds| - 1], date);
    }
  }

  /** Within a month's days the last day of a date of that month is its last day overall. */
  lemma {:induction false} LastDatedInMonth(days: seq<DayScore>, key: string, date: string)
    requires KeyOfDate(date) == key
    ensures LastDated(DaysOf(days, key), date) == LastDated(days, date)
  {
    if days != [] {
      var n := |days| - 1;
      LastDatedInMonth(days[..n], key, date);
      var d := days[n];
      var rest := DaysOf(days[..n], key);
      if MonthKey(d) == key {
        assert DaysOf(days, key) == rest + [d];
        assert (rest + [d])[..|rest|] == rest;
      } else {
        assert DaysOf(days, key) == rest;
        assert d.date != date;
      }
    }
  }

  /** The cells of a month: the leading empty cells, then the last of the month's
      days for each date. */
  lemma CellsMeaning(y: nat, m: nat, monthDays: seq<DayScore>)
    requires 1 <= m <= 12
    ensures |Cells(y, m, monthDays)| == Weekday(y, m, 1) + DaysInMonth(y, m)
    ensures forall i :: 0 <= i < Weekday(y, m, 1) ==> Cells(y, m, monthDays)[i].None?
    ensures forall d :: 1 <= d <= DaysInMonth(y, m) ==>
              Cells(y, m, monthDays)[Weekday(y, m, 1) + d - 1] == LastDated(monthDays, DateStr(y, m, d))
  {
    forall d | 1 <= d <= DaysInMonth(y, m)
      ensures Cells(y, m, monthDays)[Weekday(y, m, 1) + d - 1] == LastDated(monthDays, DateStr(y, m, d))
    {
      CellOfDay(y, m, monthDays, d);
    }
  }

  lemma CellOfDay(y: nat, m: nat, monthDays: seq<DayScore>, d: nat)
    requires 1 <= m <= 12 && 1 <= d <= DaysInMonth(y, m)
    ensures Weekday(y, m, 1) + d - 1 < |Cells(y, m, monthDays)|
    ensures Cells(y, m, monthDays)[Weekday(y, m, 1) + d - 1] == LastDated(monthDays, DateStr(y, m, d))
  {
    var cells, pad := Cells(y, m, monthDays), Weekday(y, m, 1);
    assert cells[pad + d - 1] == Lookup(DayMap(monthDays), DateStr(y, m, d));
    DayMapIsLastDated(monthDays, DateStr(y, m, d));
  }

  /** A month group's cells: `leadingPad` in 0..6 empty cells, then day `d` at
      `leadingPad + d - 1` holding the last input day dated `y-mm-dd`, or nothing. */
  lemma GroupCells(days: seq<DayScore>, key: string, d: nat)
    requires ValidKey(key)
    ensures 0 <= Weekday(YearOf(key), MonthOf(key), 1) <= 6
    ensures |GroupOf(days, key).days| == Weekday(YearOf(key), MonthOf(key), 1) + DaysInMonth(YearOf(key), MonthOf(key))
    ensures forall i :: 0 <= i < Weekday(YearOf(key), MonthOf(key), 1) ==> GroupOf(days, key).days[i].None?
    ensures 1 <= d <= DaysInMonth(YearOf(key), MonthOf(key)) ==>
              GroupOf(days, key).days[Weekday(YearOf(key), MonthOf(key), 1) + d - 1]
                == LastDated(days, DateStr(YearOf(key), MonthOf(key), d))
  {
    var y, m := YearOf(key), MonthOf(key);
    CellsMeaning(y, m, DaysOf(days, key));
    if 1 <= d <= DaysInMonth(y, m) {
      DateStrKey(key, d);
      LastDatedInMonth(days, key, DateStr(y, m, d));
    }
  }

  // ---------------------------------------------------------------------------
  // Navigation and selection
  // ---------------------------------------------------------------------------

  /** `monthIndex < 0 ? months.length - 1 : monthIndex`: an unset index means the latest month. */
  function CurrentIndex(monthIndex: int, count: nat): (r: int)
    ensures count > 0 && monthIndex < count ==> 0 <= r < count
    ensures monthIndex < 0 ==> r == count - 1
    ensures 0 <= monthIndex ==> r == monthIndex
  {
    if monthIndex < 0 then count - 1 else monthIndex
  }

  /** `goPrev`: one month back, never below the first. */
  function GoPrev(i: int): (r: int)
    ensures r >= 0
    ensures i > 0 ==> r == i - 1
  {
    if i - 1 >= 0 then i - 1 else 0
  }

  /** `goNext`: one month on, never past the last. */
  function GoNext(i: int, count: nat): (r: int)
    ensures r <= count - 1
    ensures i + 1 <= count - 1 ==> r == i + 1
  {
    if count - 1 <= i + 1 then count - 1 else i + 1
  }

  /** From any set index, or the unset -1, both buttons stay on an existing month. */
  lemma NavigationInRange(i: int, count: nat)
    requires count > 0 && -1 <= i < count
    ensures 0 <= GoPrev(i) < count
    ensures 0 <= GoNext(i, count) < count
  {
  }

  /** Away from the ends, going back and then forward returns to the same month, and vice versa. */
  lemma NavigationInverse(i: int, count: nat)
    ensures 0 < i < count ==> GoNext(GoPrev(i), count) == i
    ensures 0 <= i < count - 1 ==> GoPrev(GoNext(i, count)) == i
  {
  }

  /** `handleDayClick`: a click selects a day only when the market was open that day. */
  function DayClick(selected: Option<DayScore>, day: DayScore): (r: Option<DayScore>)
    ensures r == Some(day) <==> day.marketOpen || selected == Some(day)
    ensures !day.marketOpen ==> r == selected
  {
    if day.marketOpen then Some(day) else selected
  }
}
