/** The daylight-saving detector of package tenpo: an offset sampler that
    compares the UTC offset at the first day of eleven months with the offset
    at 1 January, and a process-wide memo table keyed by timezone and year.

    The timezone database is not modelled: resolving an identifier
    (`time.LoadLocation`) is a function `load` from identifiers to a zone
    handle or an error message, and reading the offset in effect at
    00:00 on the 1st of a month (`time.Date(...).Zone()`) is a function
    `zoneOffset` of the handle, the year and the month. */
module Tenpo {
  import opened Wrappers
  import opened Months
  import opened Decimal

  // ---------------------------------------------------------------------
  // Cache key
  // ---------------------------------------------------------------------

  /** Position of the last occurrence of `c` in `s`, or -1. */
  function LastIndexOf(s: string, c: char): (r: int)
    ensures -1 <= r < |s|
    ensures r >= 0 ==> s[r] == c
    ensures forall i :: r < i < |s| ==> s[i] != c
  {
    if s == [] then -1
    else if s[|s| - 1] == c then |s| - 1
    else LastIndexOf(s[..|s| - 1], c)
  }

  /** Splits a key at its last '/' into the timezone and the year: the
      inverse of CacheKey. The package never parses keys; this exists only
      to prove that distinct pairs have distinct keys. */
  function ParseCacheKey(k: string): Option<(string, int)>
  {
    var slash := LastIndexOf(k, '/');
    if slash < 0 then None
    else
      var text := k[slash + 1..];
      if IsIntText(text) then Some((k[..slash], ParseInt(text))) else None
  }

  /** The key `fmt.Sprintf("%s/%d", timezone, year)`; CacheKeyRoundTrip
      shows that ParseCacheKey inverts it. */
  function CacheKey(timezone: string, year: int): string
  {
    timezone + "/" + FormatInt(year)
  }

  /** A key's last '/' is the one CacheKey puts after the timezone, because
      the year's text holds no '/'. */
  lemma LastSlashOfKey(timezone: string, year: int)
    ensures LastIndexOf(CacheKey(timezone, year), '/') == |timezone|
  {
    var k, text := CacheKey(timezone, year), FormatInt(year);
    assert k[|timezone|] == '/';
    assert forall i :: |timezone| < i < |k| ==> k[i] == text[i - |timezone| - 1];
  }

  lemma CacheKeyRoundTrip(timezone: string, year: int)
    ensures ParseCacheKey(CacheKey(timezone, year)) == Some((timezone, year))
  {
    var k := CacheKey(timezone, year);
    LastSlashOfKey(timezone, year);
    assert k[|timezone| + 1..] == FormatInt(year);
    assert k[..|timezone|] == timezone;
    ParseFormatInt(year);
  }

  /** Different (timezone, year) pairs never share a cache entry. */
  lemma CacheKeyInjective(tz1: string, y1: int, tz2: string, y2: int)
    requires CacheKey(tz1, y1) == CacheKey(tz2, y2)
    ensures tz1 == tz2 && y1 == y2
  {
    CacheKeyRoundTrip(tz1, y1);
    CacheKeyRoundTrip(tz2, y2);
  }

  // ---------------------------------------------------------------------
  // Offset sampler
  // ---------------------------------------------------------------------

  /** The detection result: some probed month starts with a UTC offset that
      differs from the offset at 1 January of the same year. */
  predicate ShiftObserved<Z>(zoneOffset: (Z, int, Month) -> int, zone: Z, year: int)
  {
    exists i :: 0 <= i < |MonthOrders()| &&
      zoneOffset(zone, year, MonthOrders()[i]) != zoneOffset(zone, year, January)
  }

  /** Full scan without early exit: every probe whose offset differs from the
      1 January baseline, in probe order. */
  function Differing<Z>(zoneOffset: (Z, int, Month) -> int, zone: Z, year: int, probes: seq<Month>): (r: seq<Month>)
    ensures |r| <= |probes|
    ensures forall m :: m in r <==>
      m in probes && zoneOffset(zone, year, m) != zoneOffset(zone, year, January)
  {
    if probes == [] then []
    else
      var rest := Differing(zoneOffset, zone, year, probes[1..]);
      if zoneOffset(zone, year, probes[0]) != zoneOffset(zone, year, January)
      then [probes[0]] + rest
      else rest
  }

  /** Stopping at the first mismatch gives the answer that scanning all
      eleven probes gives. */
  lemma {:induction false} EarlyExitAgreesWithFullScan<Z>(zoneOffset: (Z, int, Month) -> int, zone: Z, year: int)
    ensures ShiftObserved(zoneOffset, zone, year) <==>
      Differing(zoneOffset, zone, year, MonthOrders()) != []
  {
    var probes, r := MonthOrders(), Differing(zoneOffset, zone, year, MonthOrders());
    if ShiftObserved(zoneOffset, zone, year) {
      var i :| 0 <= i < |probes| && zoneOffset(zone, year, probes[i]) != zoneOffset(zone, year, January);
      assert probes[i] in r;
    }
    if r != [] {
      assert r[0] in probes;
      var i :| 0 <= i < |probes| && probes[i] == r[0];
      assert zoneOffset(zone, year, probes[i]) != zoneOffset(zone, year, January);
    }
  }

  /** Because the probes are all months but January, a shift is reported
      exactly when the offset at the start of some month of the year differs
      from the offset at the start of January. */
  lemma ShiftIffOffsetVaries<Z>(zoneOffset: (Z, int, Month) -> int, zone: Z, year: int)
    ensures ShiftObserved(zoneOffset, zone, year) <==>
      exists m: Month :: zoneOffset(zone, year, m) != zoneOffset(zone, year, January)
  {
    var probes := MonthOrders();
    if m: Month :| zoneOffset(zone, year, m) != zoneOffset(zone, year, January) {
      MonthOrdersCoverAllButJanuary(m);
      var i :| 0 <= i < |probes| && probes[i] == m;
      assert zoneOffset(zone, year, probes[i]) != zoneOffset(zone, year, January);
    }
  }

  /** The probe loop: baseline at 1 January, then the months of
      `monthOrders` in order, stopping at the first offset that differs. */
  method ProbeOffsets<Z>(zoneOffset: (Z, int, Month) -> int, zone: Z, year: int) returns (isDaylightSaving: bool)
    ensures isDaylightSaving == ShiftObserved(zoneOffset, zone, year)
  {
    var probes := MonthOrders();
    var offset := zoneOffset(zone, year, January);
    isDaylightSaving := false;
    for i := 0 to |probes|
      invariant !isDaylightSaving
      invariant forall j :: 0 <= j < i ==> zoneOffset(zone, year, probes[j]) == offset
    {
      var monthOffset := zoneOffset(zone, year, probes[i]);
      if monthOffset != offset {
        isDaylightSaving := true;
        break;
      }
    }
  }

  /** What a call computes when nothing is cached: the resolver's error, or
      the sampler's answer for the resolved zone. */
  function Detect<Z>(load: string -> Result<Z, string>, zoneOffset: (Z, int, Month) -> int,
                     year: int, timezone: string): (r: Result<bool, string>)
    ensures r.Failure? <==> load(timezone).Failure?
    ensures r.Failure? ==> r.error == load(timezone).error
    ensures r.Success? ==> (r.value <==>
      exists m: Month :: zoneOffset(load(timezone).value, year, m) != zoneOffset(load(timezone).value, year, January))
  {
    match load(timezone)
    case Failure(e) => Failure(e)
    case Success(zone) =>
      ShiftIffOffsetVaries(zoneOffset, zone, year);
      Success(ShiftObserved(zoneOffset, zone, year))
  }

  // ---------------------------------------------------------------------
  // Result cache
  // ---------------------------------------------------------------------

  /** The package state `localCache`, together with the timezone database it
      memoises, which is fixed for the lifetime of the process. */
  class LocalCache<Z> {
    /** Stored results by cache key. */
    var entries: map<string, bool>
    /** `time.LoadLocation`. */
    const load: string -> Result<Z, string>
    /** The offset `Zone()` reports at 00:00 on the 1st of a month. */
    const zoneOffset: (Z, int, Month) -> int
    /** Every identifier handed to the resolver, in call order. */
    ghost var Lookups: seq<string>

    /** Every entry sits under the key of some (timezone, year) and holds the
        result an uncached computation gives for that pair. */
    ghost predicate Valid()
      reads this
    {
      forall k :: k in entries ==>
        exists tz: string, y: int :: k == CacheKey(tz, y) &&
          Detect(load, zoneOffset, y, tz) == Success(entries[k])
    }

    /** The cache starts empty. */
    constructor (load: string -> Result<Z, string>, zoneOffset: (Z, int, Month) -> int)
      ensures Valid()
      ensures entries == map[] && Lookups == []
      ensures this.load == load && this.zoneOffset == zoneOffset
    {
      this.load := load;
      this.zoneOffset := zoneOffset;
      entries := map[];
      Lookups := [];
    }

    /** `IsTZDaylightSavingInYear`. */
    method IsTZDaylightSavingInYear(year: int, timezone: string) returns (dst: bool, err: Option<string>)
      requires Valid()
      modifies this
      ensures Valid()
      // a hit: the stored value, no error, no resolution, nothing changes
      ensures CacheKey(timezone, year) in old(entries) ==>
        dst == old(entries)[CacheKey(timezone, year)] && err == None &&
        entries == old(entries) && Lookups == old(Lookups)
      // a miss consults the resolver once
      ensures CacheKey(timezone, year) !in old(entries) ==> Lookups == old(Lookups) + [timezone]
      // a miss whose identifier does not resolve: false, the error, nothing stored
      ensures CacheKey(timezone, year) !in old(entries) && load(timezone).Failure? ==>
        !dst && err == Some(load(timezone).error) && entries == old(entries)
      // a miss that resolves: the sampler's answer, stored under the key
      ensures CacheKey(timezone, year) !in old(entries) && load(timezone).Success? ==>
        err == None && dst == ShiftObserved(zoneOffset, load(timezone).value, year) &&
        entries == old(entries)[CacheKey(timezone, year) := dst]
      // memoisation is invisible: the answer is the uncached one
      ensures err.None? <==> Detect(load, zoneOffset, year, timezone).Success?
      ensures err.Some? ==> !dst && err.value == Detect(load, zoneOffset, year, timezone).error
      ensures err.None? ==> dst == Detect(load, zoneOffset, year, timezone).value
      // the cache only grows
      ensures old(entries).Keys <= entries.Keys
      ensures forall k :: k in old(entries) ==> entries[k] == old(entries)[k]
    {
      var cacheKey := CacheKey(timezone, year);
      if cacheKey in entries {
        var tz: string, y: int :| cacheKey == CacheKey(tz, y) &&
          Detect(load, zoneOffset, y, tz) == Success(entries[cacheKey]);
        CacheKeyInjective(tz, y, timezone, year);
        return entries[cacheKey], None;
      }

      Lookups := Lookups + [timezone];
      var location := load(timezone);
      if location.Failure? {
        return false, Some(location.error);
      }
      dst := ProbeOffsets(zoneOffset, location.value, year);
      err := None;
      // the deferred write of the final result
      entries := entries[cacheKey := dst];
    }

    /** `IsTZDaylightSaving`: the same question for the current year, which
        the caller reads from the clock. */
    method IsTZDaylightSaving(currentYear: int, timezone: string) returns (dst: bool, err: Option<string>)
      requires Valid()
      modifies this
      ensures Valid()
      ensures err.None? <==> Detect(load, zoneOffset, currentYear, timezone).Success?
      ensures err.Some? ==> !dst && err.value == Detect(load, zoneOffset, currentYear, timezone).error
      ensures err.None? ==> dst == Detect(load, zoneOffset, currentYear, timezone).value
      ensures err.None? ==>
        CacheKey(timezone, currentYear) in entries && entries[CacheKey(timezone, currentYear)] == dst
      ensures err.None? ==> entries == old(entries)[CacheKey(timezone, currentYear) := dst]
      ensures err.Some? ==> entries == old(entries)
      ensures CacheKey(timezone, currentYear) in old(entries) ==> Lookups == old(Lookups)
      ensures CacheKey(timezone, currentYear) !in old(entries) ==> Lookups == old(Lookups) + [timezone]
      ensures old(entries).Keys <= entries.Keys
      ensures forall k :: k in old(entries) ==> entries[k] == old(entries)[k]
    {
      dst, err := IsTZDaylightSavingInYear(currentYear, timezone);
    }
  }

  /** Two calls in a row with the same year and timezone: after a success
      the second call gives the same answer from the cache without
      consulting the resolver again; after a failure it fails again with the
      same error and nothing is stored for the key. */
  method CallTwice<Z>(cache: LocalCache<Z>, year: int, timezone: string)
    returns (first: bool, firstErr: Option<string>, second: bool, secondErr: Option<string>)
    requires cache.Valid()
    modifies cache
    ensures cache.Valid()
    ensures firstErr.None? ==> secondErr.None? && second == first
    ensures firstErr.None? ==>
      CacheKey(timezone, year) in cache.entries && cache.entries[CacheKey(timezone, year)] == first
    ensures firstErr.None? && CacheKey(timezone, year) in old(cache.entries) ==>
      cache.Lookups == old(cache.Lookups)
    ensures firstErr.None? && CacheKey(timezone, year) !in old(cache.entries) ==>
      cache.Lookups == old(cache.Lookups) + [timezone]
    ensures firstErr.Some? ==> secondErr == firstErr && !first && !second
    ensures firstErr.Some? ==> cache.entries == old(cache.entries)
  {
    first, firstErr := cache.IsTZDaylightSavingInYear(year, timezone);
    second, secondErr := cache.IsTZDaylightSavingInYear(year, timezone);
  }
}
