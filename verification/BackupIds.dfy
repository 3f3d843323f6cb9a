/** Names of backups: `yolpol-<environment>-<timestamp>` with an optional revision,
    and the time that a timestamp of a real calendar date means. */
module BackupIds {
  import opened Decimal
  import TextOrder

  const STAMP_SIZE := 16

  function Prefix(environment: string): string { "yolpol-" + environment + "-" }

  predicate AllHex(t: string) {
    forall k :: 0 <= k < |t| ==> IsDigitChar(t[k]) || 'a' <= t[k] <= 'f'
  }

  /** `YYYYMMDDTHHMMSSZ`. */
  predicate IsStamp(t: string) {
    && |t| == STAMP_SIZE && t[8] == 'T' && t[15] == 'Z'
    && forall k :: 0 <= k < 15 && k != 8 ==> IsDigitChar(t[k])
  }

  predicate IsBackupId(environment: string, id: string) {
    var prefix := Prefix(environment);
    prefix <= id &&
    var rest := id[|prefix|..];
    && |rest| >= STAMP_SIZE && IsStamp(rest[..STAMP_SIZE])
    && (|rest| == STAMP_SIZE ||
      (STAMP_SIZE + 8 <= |rest| <= STAMP_SIZE + 65 && rest[STAMP_SIZE] == '-' && AllHex(rest[STAMP_SIZE + 1..])))
  }

  function Stamp(environment: string, id: string): (t: string)
    requires IsBackupId(environment, id)
    ensures IsStamp(t)
  {
    id[|Prefix(environment)|..][..STAMP_SIZE]
  }

  // ------------------------------------------------------------------
  // Calendar.

  datatype Moment = Moment(year: nat, month: nat, day: nat, hour: nat, minute: nat, second: nat)

  function Two(t: string, i: nat): nat
    requires i + 1 < |t| && IsDigitChar(t[i]) && IsDigitChar(t[i + 1])
  {
    10 * CharDigit(t[i]) + CharDigit(t[i + 1])
  }

  function Fields(t: string): Moment
    requires IsStamp(t)
  {
    Moment(100 * Two(t, 0) + Two(t, 2), Two(t, 4), Two(t, 6), Two(t, 9), Two(t, 11), Two(t, 13))
  }

  predicate IsLeap(year: nat) {
    year % 4 == 0 && (year % 100 != 0 || year % 400 == 0)
  }

  function DaysIn(year: nat, month: nat): (n: nat)
    requires 1 <= month <= 12
    ensures 28 <= n <= 31
  {
    if month == 2 then if IsLeap(year) then 29 else 28
    else if month in {4, 6, 9, 11} then 30 else 31
  }

  /** A date of the calendar and a time of day, both written in the usual range. */
  predicate IsReal(m: Moment) {
    && 1 <= m.month <= 12 && 1 <= m.day <= DaysIn(m.year, m.month)
    && m.hour < 24 && m.minute < 60 && m.second < 60
  }

  function DaysBeforeYear(year: nat): nat {
    if year == 0 then 0 else DaysBeforeYear(year - 1) + if IsLeap(year - 1) then 366 else 365
  }

  function DaysBeforeMonth(year: nat, month: nat): nat
    requires 1 <= month <= 13
  {
    if month == 1 then 0 else DaysBeforeMonth(year, month - 1) + DaysIn(year, month - 1)
  }

  function DayNumber(m: Moment): nat
    requires IsReal(m)
  {
    DaysBeforeYear(m.year) + DaysBeforeMonth(m.year, m.month) + m.day - 1
  }

  /** Days from the first of January of year 0 to the first of January 1970. */
  const EPOCH := 719528

  /** Seconds since 1970 in universal time. */
  function Seconds(m: Moment): int
    requires IsReal(m)
  {
    ((DayNumber(m) - EPOCH) * 24 + m.hour) * 3600 + m.minute * 60 + m.second
  }

  /** Leap years before `year`, counted by division. */
  function LeapYearsBefore(year: nat): nat {
    (year + 3) / 4 - (year + 99) / 100 + (year + 399) / 400
  }

  lemma LeapYearCounts(year: nat)
    ensures LeapYearsBefore(year + 1) == LeapYearsBefore(year) + if IsLeap(year) then 1 else 0
  {
    hide IsLeap;
    NextMultiple(year, 4);
    NextMultiple(year, 100);
    NextMultiple(year, 400);
    LeapByThree(year);
    assert year + 1 + 3 == year + 4 && year + 1 + 99 == year + 100 && year + 1 + 399 == year + 400;
  }

  lemma LeapByThree(year: nat)
    ensures (if IsLeap(year) then 1 else 0) == (if year % 4 == 0 then 1 else 0) - (if year % 100 == 0 then 1 else 0)
      + (if year % 400 == 0 then 1 else 0)
  {
    assert year % 400 == 0 ==> year % 100 == 0;
    assert year % 100 == 0 ==> year % 4 == 0;
  }

  lemma NextMultiple(year: nat, n: nat)
    requires n in {4, 100, 400}
    ensures (year + n) / n == (year + n - 1) / n + if year % n == 0 then 1 else 0
  {
  }

  lemma {:induction false} YearsAreCounted(year: nat)
    ensures DaysBeforeYear(year) == 365 * year + LeapYearsBefore(year)
  {
    if year > 0 {
      YearsAreCounted(year - 1);
      LeapYearCounts(year - 1);
    }
  }

  /** The clock starts in 1970, and a known moment: the end of the leap day 2000. */
  lemma ClockIsUnix()
    ensures Seconds(Moment(1970, 1, 1, 0, 0, 0)) == 0
    ensures Seconds(Moment(2000, 2, 29, 23, 59, 59)) == 951868799
  {
    YearsAreCounted(1970);
    YearsAreCounted(2000);
  }

  /** The first second of the day after `m`. */
  function NextDay(m: Moment): Moment
    requires IsReal(m)
  {
    if m.day < DaysIn(m.year, m.month) then Moment(m.year, m.month, m.day + 1, 0, 0, 0)
    else if m.month < 12 then Moment(m.year, m.month + 1, 1, 0, 0, 0)
    else Moment(m.year + 1, 1, 1, 0, 0, 0)
  }

  /** Days follow each other without a gap, and within a day the seconds count. */
  lemma DaysAreCounted(m: Moment)
    requires IsReal(m)
    ensures Seconds(NextDay(m)) == Seconds(m) - (m.hour * 3600 + m.minute * 60 + m.second) + 86400
  {
    if m.day == DaysIn(m.year, m.month) && m.month == 12 {
      YearIsFull(m.year);
      assert DaysBeforeMonth(m.year, 13) == DaysBeforeMonth(m.year, 12) + 31;
    }
  }

  /** The lengths of the months. */
  lemma MonthsAre(year: nat)
    ensures forall month :: month in {1, 3, 5, 7, 8, 10, 12} ==> DaysIn(year, month) == 31
    ensures forall month :: month in {4, 6, 9, 11} ==> DaysIn(year, month) == 30
    ensures DaysIn(year, 2) == if year % 400 == 0 || (year % 4 == 0 && year % 100 != 0) then 29 else 28
  {
  }

  /** What each part of a stamp means. */
  lemma StampExample()
    ensures IsStamp("20241231T235807Z") && Fields("20241231T235807Z") == Moment(2024, 12, 31, 23, 58, 7)
  {
  }

  predicate IsRevision(t: string) {
    7 <= |t| <= 64 && forall k :: 0 <= k < |t| ==> '0' <= t[k] <= '9' || 'a' <= t[k] <= 'f'
  }

  /** The names: a stamp, with or without a revision of 7 to 64 hexadecimal digits. */
  lemma NamesAre(environment: string, id: string)
    ensures IsBackupId(environment, id) <==>
      || (exists stamp: string :: IsStamp(stamp) && id == "yolpol-" + environment + "-" + stamp)
      || (exists stamp: string, revision: string ::
            IsStamp(stamp) && IsRevision(revision) && id == "yolpol-" + environment + "-" + stamp + "-" + revision)
  {
    var prefix := Prefix(environment);
    if IsBackupId(environment, id) {
      var rest := id[|prefix|..];
      assert id == prefix + rest;
      if |rest| == STAMP_SIZE {
        assert rest[..STAMP_SIZE] == rest;
      } else {
        assert rest == rest[..STAMP_SIZE] + "-" + rest[STAMP_SIZE + 1..];
        assert AllHex(rest[STAMP_SIZE + 1..]) && IsRevision(rest[STAMP_SIZE + 1..]);
        assert id == prefix + rest[..STAMP_SIZE] + "-" + rest[STAMP_SIZE + 1..];
      }
    }
    if stamp: string :| IsStamp(stamp) && id == "yolpol-" + environment + "-" + stamp {
      assert id[|prefix|..] == stamp && stamp[..STAMP_SIZE] == stamp;
    }
    if stamp: string, revision: string :|
      IsStamp(stamp) && IsRevision(revision) && id == "yolpol-" + environment + "-" + stamp + "-" + revision {
      RevisionIsAccepted(environment, stamp, revision);
    }
  }

  lemma RevisionIsAccepted(environment: string, stamp: string, revision: string)
    requires IsStamp(stamp) && IsRevision(revision)
    ensures IsBackupId(environment, "yolpol-" + environment + "-" + stamp + "-" + revision)
  {
    var prefix, rest := Prefix(environment), stamp + "-" + revision;
    var id := "yolpol-" + environment + "-" + stamp + "-" + revision;
    assert id == prefix + rest;
    assert id[|prefix|..] == rest && |rest| == 17 + |revision|;
    assert rest[..STAMP_SIZE] == stamp && rest[STAMP_SIZE] == '-' && rest[STAMP_SIZE + 1..] == revision;
    assert AllHex(revision);
  }

  // ------------------------------------------------------------------
  // Text order is time order.

  predicate Earlier(a: Moment, b: Moment) {
    || a.year < b.year
    || (a.year == b.year && (a.month < b.month
    || (a.month == b.month && (a.day < b.day
    || (a.day == b.day && (a.hour < b.hour
    || (a.hour == b.hour && (a.minute < b.minute
    || (a.minute == b.minute && a.second < b.second)))))))))
  }

  lemma {:induction false} YearsAccumulate(a: nat, b: nat)
    requires a < b
    ensures DaysBeforeYear(a) + (if IsLeap(a) then 366 else 365) <= DaysBeforeYear(b)
  {
    if a + 1 < b {
      YearsAccumulate(a, b - 1);
    }
  }

  lemma {:induction false} MonthsAccumulate(year: nat, a: nat, b: nat)
    requires 1 <= a < b <= 13
    ensures DaysBeforeMonth(year, a) + DaysIn(year, a) <= DaysBeforeMonth(year, b)
  {
    if a + 1 < b {
      MonthsAccumulate(year, a, b - 1);
    }
  }

  lemma YearIsFull(year: nat)
    ensures DaysBeforeMonth(year, 13) == if IsLeap(year) then 366 else 365
  {
    var leap := if IsLeap(year) then 1 else 0;
    assert DaysBeforeMonth(year, 2) == 31;
    assert DaysBeforeMonth(year, 3) == 59 + leap;
    assert DaysBeforeMonth(year, 5) == 120 + leap;
    assert DaysBeforeMonth(year, 7) == 181 + leap;
    assert DaysBeforeMonth(year, 9) == 243 + leap;
    assert DaysBeforeMonth(year, 11) == 304 + leap;
  }

  lemma DaysFollow(a: Moment, b: Moment)
    requires IsReal(a) && IsReal(b)
    requires a.year < b.year || (a.year == b.year && a.month < b.month)
    ensures DayNumber(a) < DayNumber(b)
  {
    if a.year < b.year {
      MonthsAccumulate(a.year, a.month, 13);
      YearIsFull(a.year);
      YearsAccumulate(a.year, b.year);
    } else {
      MonthsAccumulate(a.year, a.month, b.month);
    }
  }

  lemma EarlierIsLess(a: Moment, b: Moment)
    requires IsReal(a) && IsReal(b) && Earlier(a, b)
    ensures Seconds(a) < Seconds(b)
  {
    if a.year < b.year || (a.year == b.year && a.month < b.month) {
      DaysFollow(a, b);
    }
  }

  lemma StampsCompare(s: string, t: string)
    requires IsStamp(s) && IsStamp(t) && TextOrder.Less(s, t)
    ensures Earlier(Fields(s), Fields(t))
  {
    var k := TextOrder.FirstDifference(s, t);
    assert forall i :: 0 <= i < k ==> s[i] == s[..k][i] == t[..k][i] == t[i];
  }

  /** Of two names of one environment, the one that comes later as a text is not
      earlier in time, if both hold real dates. */
  lemma LaterNameIsNotEarlier(environment: string, a: string, b: string)
    requires IsBackupId(environment, a) && IsBackupId(environment, b) && TextOrder.Less(a, b)
    requires IsReal(Fields(Stamp(environment, a))) && IsReal(Fields(Stamp(environment, b)))
    ensures Seconds(Fields(Stamp(environment, a))) <= Seconds(Fields(Stamp(environment, b)))
  {
    var prefix := Prefix(environment);
    var x, y := a[|prefix|..], b[|prefix|..];
    assert a == prefix + x && b == prefix + y;
    TextOrder.LessAfterPrefix(prefix, x, y);
    TextOrder.LessBefore(x, y, STAMP_SIZE);
    if x[..STAMP_SIZE] != y[..STAMP_SIZE] {
      StampsCompare(x[..STAMP_SIZE], y[..STAMP_SIZE]);
      EarlierIsLess(Fields(Stamp(environment, a)), Fields(Stamp(environment, b)));
    }
  }
}
