/** `inspectBackupDirectory`: the newest valid backup pair. */
module BackupSelection {
  import opened BackupIds
  import opened Outcomes
  import TextOrder

  datatype Metric = Metric(
    monitoringEnabled: bool, scanSuccess: bool, validPairExists: bool, latestTimestamp: int, latestAge: int)

  /** What the directory holds: which names belong to a pair that passes every
      check on the two files, and the time the platform's date parser gives to a
      stamp that is not a real calendar date, if it accepts that. */
  datatype Directory = Directory(pairs: set<string>, unreal: map<Moment, int>)

  /** The creation time of `backupIdDetails`, in seconds. */
  function CreatedAt(environment: string, id: string, unreal: map<Moment, int>): Option<int> {
    if !IsBackupId(environment, id) then None
    else
      var m := Fields(Stamp(environment, id));
      if IsReal(m) then Some(Seconds(m))
      else if m in unreal then Some(unreal[m])
      else None
  }

  /** `verifyBackupPair`; None stands for null and for an exception. */
  function Verified(environment: string, id: string, d: Directory): Option<int> {
    if id in d.pairs then CreatedAt(environment, id, d.unreal) else None
  }

  const SUFFIX := ".manifest.json"

  predicate EndsWithSuffix(file: string) {
    |file| >= |SUFFIX| && file[|file| - |SUFFIX|..] == SUFFIX
  }

  /** The names of the manifests of a listing, without their suffix. */
  function Names(files: seq<string>): set<string> {
    set file | file in files && EndsWithSuffix(file) :: file[..|file| - |SUFFIX|]
  }

  /** The creation time of the last name whose pair is valid. */
  function Latest(environment: string, names: seq<string>, d: Directory): Option<int> {
    if names == [] then None
    else
      var created := Verified(environment, names[|names| - 1], d);
      if created.Some? then created else Latest(environment, names[..|names| - 1], d)
  }

  function Age(created: int, nowMilliseconds: int): int {
    var age := (nowMilliseconds - created * 1000) / 1000;
    if age < 0 then 0 else age
  }

  /** The age is the time since the creation in full seconds, and 0 for a creation in
      the future. */
  lemma AgeIsElapsed(created: int, nowMilliseconds: int)
    ensures nowMilliseconds >= created * 1000 ==>
      Age(created, nowMilliseconds) * 1000 <= nowMilliseconds - created * 1000
        < Age(created, nowMilliseconds) * 1000 + 1000
    ensures nowMilliseconds < created * 1000 ==> Age(created, nowMilliseconds) == 0
  {
  }

  /** The candidates are the names whose manifest is listed. */
  lemma NamesAreListed(files: seq<string>, id: string)
    ensures id in Names(files) <==> id + ".manifest.json" in files
  {
    NameOfManifest(id);
    if id in Names(files) {
      var file :| file in files && EndsWithSuffix(file) && file[..|file| - |SUFFIX|] == id;
      assert file == id + SUFFIX;
    }
  }

  const DISABLED := Metric(false, true, false, 0, 0)
  const UNREADABLE := Metric(true, false, false, 0, 0)
  const NO_BACKUP := Metric(true, true, false, 0, 0)

  function Reported(created: Option<int>, nowMilliseconds: int): Metric {
    match created
    case None => NO_BACKUP
    case Some(t) => Metric(true, true, true, t, Age(t, nowMilliseconds))
  }

  /** `inspectBackupDirectory`, which goes through the names from the last to the
      first; no listing means that the directory could not be read. */
  method Inspect(enabled: bool, files: Option<seq<string>>, environment: string, nowMilliseconds: int, d: Directory)
    returns (r: Metric)
    ensures r ==
      if !enabled then DISABLED
      else if files.None? then UNREADABLE
      else Report(environment, files.value, nowMilliseconds, d)
    ensures r.monitoringEnabled == enabled && r.scanSuccess == (!enabled || files.Some?)
    ensures r.validPairExists ==> enabled && files.Some? && r.latestAge == Age(r.latestTimestamp, nowMilliseconds)
    ensures !r.validPairExists ==> r.latestTimestamp == 0 && r.latestAge == 0
  {
    if !enabled {
      return DISABLED;
    }
    if files.None? {
      return UNREADABLE;
    }
    var names := TextOrder.Sorted(Names(files.value));
    var i := |names|;
    assert names[..i] == names;
    while i > 0
      invariant 0 <= i <= |names|
      invariant Latest(environment, names[..i], d) == Latest(environment, names, d)
    {
      assert names[..i][..i - 1] == names[..i - 1];
      i := i - 1;
      var created := Verified(environment, names[i], d);
      if created.Some? {
        return Metric(true, true, true, created.value, Age(created.value, nowMilliseconds));
      }
    }
    return NO_BACKUP;
  }

  /** A pair is reported exactly if a valid one exists, and it is one of them. */
  lemma {:induction false} ReportedIffExists(environment: string, names: seq<string>, d: Directory)
    ensures Latest(environment, names, d).Some? <==> exists id :: id in names && Verified(environment, id, d).Some?
    ensures Latest(environment, names, d).Some? ==>
      exists id :: id in names && Verified(environment, id, d) == Latest(environment, names, d)
  {
    if names != [] {
      var last := |names| - 1;
      ReportedIffExists(environment, names[..last], d);
      assert names == names[..last] + [names[last]];
      assert forall id :: id in names <==> id in names[..last] || id == names[last];
    }
  }

  /** The pair has a name that holds a date of the calendar. */
  predicate HoldsRealDate(environment: string, id: string) {
    IsBackupId(environment, id) && IsReal(Fields(Stamp(environment, id)))
  }

  /** The reported pair is the newest of the valid pairs, if all their names hold
      real dates. */
  lemma {:induction false} ReportedIsNewest(environment: string, names: seq<string>, d: Directory)
    requires TextOrder.Ascending(names)
    requires forall id :: id in names && Verified(environment, id, d).Some? ==> HoldsRealDate(environment, id)
    ensures forall id :: id in names && Verified(environment, id, d).Some? ==>
      Latest(environment, names, d).Some? && Verified(environment, id, d).value <= Latest(environment, names, d).value
  {
    if names != [] {
      var last := |names| - 1;
      var created := Verified(environment, names[last], d);
      assert forall id :: id in names <==> id in names[..last] || id == names[last];
      if created.None? {
        ReportedIsNewest(environment, names[..last], d);
      } else {
        forall id | id in names && Verified(environment, id, d).Some?
          ensures Verified(environment, id, d).value <= created.value
        {
          var k :| 0 <= k <= last && names[k] == id;
          if k < last {
            LaterNameIsNotEarlier(environment, id, names[last]);
          }
        }
      }
    }
  }

  lemma CreatedOfStamp(environment: string, stamp: string, d: Directory)
    requires IsStamp(stamp)
    ensures var m := Fields(stamp);
      CreatedAt(environment, Prefix(environment) + stamp, d.unreal) ==
      if IsReal(m) then Some(Seconds(m)) else if m in d.unreal then Some(d.unreal[m]) else None
  {
    var id := Prefix(environment) + stamp;
    assert id[|Prefix(environment)|..] == stamp && stamp[..STAMP_SIZE] == stamp;
  }

  // ------------------------------------------------------------------
  // When the report is right.

  /** The date parser gives no valid name an earlier time than one before it. */
  ghost predicate ParsesInOrder(environment: string, unreal: map<Moment, int>) {
    forall a, b :: TextOrder.Less(a, b) ==> NotEarlier(environment, a, b, unreal)
  }

  predicate NotEarlier(environment: string, a: string, b: string, unreal: map<Moment, int>) {
    var x, y := CreatedAt(environment, a, unreal), CreatedAt(environment, b, unreal);
    x.Some? && y.Some? ==> x.value <= y.value
  }

  /** What `Inspect` returns for a readable listing. */
  function Report(environment: string, files: seq<string>, nowMilliseconds: int, d: Directory): Metric {
    Reported(Latest(environment, TextOrder.Sorted(Names(files)), d), nowMilliseconds)
  }

  /** A pair is reported if there is a valid one, and no valid one is newer. */
  ghost predicate IsNewest(environment: string, files: seq<string>, m: Metric, d: Directory) {
    forall id :: id in Names(files) && Verified(environment, id, d).Some? ==>
      m.validPairExists && Verified(environment, id, d).value <= m.latestTimestamp
  }

  lemma {:induction false} LatestIsNewest(environment: string, names: seq<string>, d: Directory)
    requires TextOrder.Ascending(names) && ParsesInOrder(environment, d.unreal)
    ensures forall id :: id in names && Verified(environment, id, d).Some? ==>
      Latest(environment, names, d).Some? && Verified(environment, id, d).value <= Latest(environment, names, d).value
  {
    if names != [] {
      var last := |names| - 1;
      var created := Verified(environment, names[last], d);
      assert forall id :: id in names <==> id in names[..last] || id == names[last];
      if created.None? {
        LatestIsNewest(environment, names[..last], d);
      } else {
        forall id | id in names && Verified(environment, id, d).Some?
          ensures Verified(environment, id, d).value <= created.value
        {
          var k :| 0 <= k <= last && names[k] == id;
          if k < last {
            assert NotEarlier(environment, id, names[last], d.unreal);
          }
        }
      }
    }
  }

  lemma NameOfManifest(x: string)
    ensures var file := x + SUFFIX; EndsWithSuffix(file) && file[..|file| - |SUFFIX|] == x
  {
  }

  lemma NamesOfManifests(a: string, b: string)
    ensures Names([a + SUFFIX, b + SUFFIX]) == {a, b}
  {
    var files := [a + SUFFIX, b + SUFFIX];
    NameOfManifest(a);
    NameOfManifest(b);
    hide EndsWithSuffix;
    assert files[0] in files && files[1] in files;
    assert forall file :: file in files <==> file == a + SUFFIX || file == b + SUFFIX;
  }

  /** Of two valid names the later one is reported. */
  lemma LaterIsReported(environment: string, a: string, b: string, nowMilliseconds: int, d: Directory)
    requires TextOrder.Less(a, b) && Verified(environment, b, d).Some?
    ensures Report(environment, [a + SUFFIX, b + SUFFIX], nowMilliseconds, d).latestTimestamp
      == Verified(environment, b, d).value
  {
    NamesOfManifests(a, b);
    var s := TextOrder.Sorted({a, b});
    assert b in s;
    var k :| 0 <= k < |s| && s[k] == b;
    assert s[|s| - 1] in s;
    TextOrder.Trichotomy(a, b);
    TextOrder.Trichotomy(b, b);
    assert s[|s| - 1] == b;
  }

  lemma OutOfOrderMisleads(environment: string, unreal: map<Moment, int>, a: string, b: string)
    requires TextOrder.Less(a, b) && !NotEarlier(environment, a, b, unreal)
    ensures var files, d := [a + SUFFIX, b + SUFFIX], Directory({a, b}, unreal);
      !IsNewest(environment, files, Report(environment, files, 0, d), d)
  {
    var d := Directory({a, b}, unreal);
    NamesOfManifests(a, b);
    LaterIsReported(environment, a, b, 0, d);
    assert a in Names([a + SUFFIX, b + SUFFIX]);
  }

  lemma InOrderIsNewest(environment: string, files: seq<string>, nowMilliseconds: int, d: Directory)
    requires ParsesInOrder(environment, d.unreal)
    ensures IsNewest(environment, files, Report(environment, files, nowMilliseconds, d), d)
  {
    LatestIsNewest(environment, TextOrder.Sorted(Names(files)), d);
  }

  ghost predicate AlwaysNewest(environment: string, unreal: map<Moment, int>) {
    forall files, now, d: Directory ::
      d.unreal == unreal ==> IsNewest(environment, files, Report(environment, files, now, d), d)
  }

  /** The metric names the newest valid pair, for every listing and every set of
      pairs, exactly if the date parser gives times in the order of the names. */
  lemma NewestIffParsesInOrder(environment: string, unreal: map<Moment, int>)
    ensures AlwaysNewest(environment, unreal) <==> ParsesInOrder(environment, unreal)
  {
    hide IsNewest, Report, NotEarlier;
    if ParsesInOrder(environment, unreal) {
      forall files, now, d: Directory | d.unreal == unreal
        ensures IsNewest(environment, files, Report(environment, files, now, d), d)
      {
        InOrderIsNewest(environment, files, now, d);
      }
    } else {
      var a, b :| TextOrder.Less(a, b) && !NotEarlier(environment, a, b, unreal);
      OutOfOrderMisleads(environment, unreal, a, b);
    }
  }

  const FEBRUARY_31 := "20230231T000000Z"
  const MARCH_1 := "20230301T000000Z"

  lemma ExampleStamps()
    ensures IsStamp(FEBRUARY_31) && Fields(FEBRUARY_31) == Moment(2023, 2, 31, 0, 0, 0)
    ensures IsStamp(MARCH_1) && Fields(MARCH_1) == Moment(2023, 3, 1, 0, 0, 0)
  {
  }

  lemma ExampleOrder()
    ensures TextOrder.Less(FEBRUARY_31, MARCH_1)
  {
    var a, b := FEBRUARY_31[5..], MARCH_1[5..];
    assert a[0] == '2' && b[0] == '3';
    assert FEBRUARY_31 == "20230" + a && MARCH_1 == "20230" + b;
    TextOrder.LessAfterPrefix("20230", a, b);
  }

  lemma ExampleTimes(environment: string, d: Directory)
    requires Moment(2023, 2, 31, 0, 0, 0) in d.unreal
    ensures CreatedAt(environment, Prefix(environment) + FEBRUARY_31, d.unreal)
      == Some(d.unreal[Moment(2023, 2, 31, 0, 0, 0)])
    ensures CreatedAt(environment, Prefix(environment) + MARCH_1, d.unreal)
      == Some(Seconds(Moment(2023, 3, 1, 0, 0, 0)))
  {
    ExampleStamps();
    CreatedOfStamp(environment, FEBRUARY_31, d);
    CreatedOfStamp(environment, MARCH_1, d);
  }

  lemma LastOfTwo(environment: string, a: string, b: string, d: Directory)
    requires TextOrder.Less(a, b) && Verified(environment, b, d).Some?
    ensures TextOrder.Ascending([a, b]) && Latest(environment, [a, b], d) == Verified(environment, b, d)
  {
  }

  /** The condition on the names is needed: where the platform reads the 31st of
      February as the 3rd of March, a pair of the 1st of March is reported instead. */
  lemma UnrealDateMisleads(environment: string, late: string, early: string, d: Directory)
    requires late == Prefix(environment) + FEBRUARY_31 && early == Prefix(environment) + MARCH_1
    requires d == Directory({late, early},
      map[Moment(2023, 2, 31, 0, 0, 0) := Seconds(Moment(2023, 3, 3, 0, 0, 0))])
    ensures Verified(environment, late, d) == Some(Seconds(Moment(2023, 3, 3, 0, 0, 0)))
    ensures Latest(environment, [late, early], d) == Some(Seconds(Moment(2023, 3, 1, 0, 0, 0)))
    ensures TextOrder.Ascending([late, early]) && !ParsesInOrder(environment, d.unreal)
  {
    ExampleTimes(environment, d);
    ExampleOrder();
    TextOrder.LessAfterPrefix(Prefix(environment), FEBRUARY_31, MARCH_1);
    LastOfTwo(environment, late, early, d);
    assert !NotEarlier(environment, late, early, d.unreal);
  }

  // ------------------------------------------------------------------
  // The cache in front of the scan.

  datatype Scan = Scan(collectedAt: int, metric: Metric)

  /** Each scan begins at least `interval` after the one before it. */
  predicate Spaced(begun: seq<int>, interval: int) {
    forall i :: 0 < i < |begun| ==> begun[i] - begun[i - 1] >= interval
  }

  /** `BackupMetricCache`. A scan that is pending is known by the time of the read
      that began it. */
  class BackupMetricCache {
    const enabled: bool
    const interval: int
    var cached: Option<Scan>
    var pending: Option<int>
    ghost var begun: seq<int>

    constructor (enabled: bool, interval: int)
      ensures Valid() && cached == None && pending == None && begun == []
      ensures this.enabled == enabled && this.interval == interval
    {
      this.enabled, this.interval := enabled, interval;
      cached, pending, begun := None, None, [];
    }

    /** Scans do not overlap: what is pending is the last scan that began, and
        what is cached otherwise is its result. */
    ghost predicate Valid()
      reads this
    {
      && Spaced(begun, interval)
      && (pending.Some? ==> begun != [] && begun[|begun| - 1] == pending.value)
      && (pending.None? ==>
        (cached.Some? <==> begun != []) && (begun != [] ==> cached.value.collectedAt == begun[|begun| - 1]))
    }

    /** `read` up to its `await`: an answer, or None for waiting for the pending
        scan, which this read begins if there is none. */
    method Read(now: int) returns (answer: Option<Metric>)
      requires Valid()
      modifies this`pending, this`begun
      ensures Valid()
      ensures answer.Some? ==> pending == old(pending) && begun == old(begun)
      ensures answer.Some? && !enabled ==> answer.value == DISABLED
      ensures answer.Some? && enabled ==>
        cached.Some? && answer.value == cached.value.metric && now - cached.value.collectedAt < interval
      ensures answer.None? ==> enabled && pending.Some?
      ensures answer.None? ==> begun == if old(pending).Some? then old(begun) else old(begun) + [now]
    {
      if !enabled {
        return Some(DISABLED);
      }
      if cached.Some? && now - cached.value.collectedAt < interval {
        return Some(cached.value.metric);
      }
      if pending.None? {
        pending := Some(now);
        begun := begun + [now];
      }
      return None;
    }

    /** The pending scan ends; all who wait for it get its metric. */
    method Complete(metric: Metric)
      requires Valid() && pending.Some?
      modifies this`cached, this`pending
      ensures Valid() && pending == None && cached == Some(Scan(old(pending).value, metric))
    {
      cached := Some(Scan(pending.value, metric));
      pending := None;
    }
  }
}
