# tenpo in Dafny

A model of the Go package `tenpo`, which answers one question: does a given
IANA timezone change its UTC offset at some point in a given year? It has two
parts:

- the **offset sampler** reads the offset at 00:00 on 1 January as a baseline.
  It then walks the fixed table `monthOrders` of eleven months and reads the
  offset at 00:00 on the 1st of each one. It stops at the first offset that
  differs and answers `true`; if none differs it answers `false`;
- the **result cache** `localCache` maps the key `"<timezone>/<year>"` to a
  previous answer. A hit is returned at once. An identifier that does not
  resolve gives `(false, err)` and stores nothing. Every successful
  computation is stored by a deferred write.

Files:

- `wrappers.dfy` (module `Wrappers`): `Option` and `Result`.
- `months.dfy` (module `Months`): the `Month` datatype (Go's `time.Month`) and
  `MonthOrders`, the probe table.
- `decimal.dfy` (module `Decimal`): the `%d` text of an integer, its parser,
  and their round trip.
- `tenpo.dfy` (module `Tenpo`): the cache key and its inverse; the
  specification of detection (`ShiftObserved`) and a full-scan reference
  (`Differing`); the probe loop (`ProbeOffsets`); the uncached answer
  (`Detect`); the class `LocalCache` holding `localCache`, with
  `IsTZDaylightSavingInYear` and `IsTZDaylightSaving`; and `CallTwice`, the
  repeated-call scenario of the cache test.

The timezone database is a collaborator and is abstract here.
`time.LoadLocation` is the function `load: string -> Result<Z, string>`.
`time.Date(year, month, 1, 0, 0, 0, 0, loc).Zone()` is the function
`zoneOffset: (Z, int, Month) -> int`. Both are fixed when a `LocalCache` is
built. This is an assumption of the model, not a property of the Go code:
`time.LoadLocation` reads zone data again on every cache miss, so a failure
there can be transient. Under the assumption, the soundness invariant
`LocalCache.Valid()` is meaningful: every entry sits under `CacheKey(tz, y)`
for some pair and holds `Detect` for that pair. From that invariant, each
call's answer equals the uncached answer, whether it came from the cache or
not. The ghost field `LocalCache.Lookups`
records every identifier handed to the resolver. It is only there so that
"a hit does not consult the resolver" can be stated.

The probe loop is its own method, `ProbeOffsets`. `IsTZDaylightSavingInYear`
calls it between resolving the zone and writing the cache. The deferred write
becomes the last statement of the success path. It is the only success
return, so placing it there gives the same behaviour as the `defer`.

## Model

| member | source | states |
|---|---|---|
| `Months.MonthOrders` | tenpo.go:10-22 | the probe table has 11 entries that are pairwise distinct and do not include January |
| `Months.MonthOrdersCoverAllButJanuary` | tenpo.go:10-22 | a month is in the probe table exactly when it is not January |
| `Decimal.FormatNat` | tenpo.go:38 | the decimal text of a natural number is non-empty, all digits, and has no leading zero unless the number is 0 |
| `Decimal.FormatInt` | tenpo.go:38 | the `%d` text of a year is a well-formed integer text, contains no '/', and starts with '-' exactly when the year is negative |
| `Decimal.ParseFormatNat` | tenpo.go:38 | parsing the digits of a natural number gives the number back |
| `Decimal.ParseFormatInt` | tenpo.go:38 | parsing the `%d` text of an integer gives the integer back |
| `Decimal.FormatIntInjective` | tenpo.go:38 | different years have different `%d` texts |
| `Tenpo.CacheKey` | tenpo.go:38 | the key is the timezone, a '/', and the `%d` text of the year; its meaning is stated by `Tenpo.CacheKeyRoundTrip` and `Tenpo.CacheKeyInjective` |
| `Tenpo.LastIndexOf` | tenpo.go:38 | proof helper, not code of the package: the result is -1 or a position holding the character, and no later position holds it. With `ParseCacheKey` it splits a key back into its parts, which the package never does; it is there only to prove that keys are injective |
| `Tenpo.LastSlashOfKey` | tenpo.go:38 | the last '/' of a cache key is the separator written after the timezone |
| `Tenpo.CacheKeyRoundTrip` | tenpo.go:38 | splitting a cache key at its last '/' recovers the timezone and the year |
| `Tenpo.CacheKeyInjective` | tenpo.go:38 | two (timezone, year) pairs share a cache key only if they are equal, so different years are stored under distinct keys |
| `Tenpo.ShiftObserved` | tenpo.go:51-58 | the detection result: some month in the probe table starts with a UTC offset different from the 1 January offset of the same year and zone; its properties are stated by `Tenpo.ShiftIffOffsetVaries`, `Tenpo.EarlyExitAgreesWithFullScan` and `Tenpo.ProbeOffsets` |
| `Tenpo.Detect` | tenpo.go:43-59 | the uncached answer: it fails exactly when resolution fails, with the resolver's error. Otherwise it is true exactly when the offset on the 1st of some month differs from the 1 January offset |
| `Tenpo.Differing` | tenpo.go:52-58 | the full scan keeps exactly the probed months whose offset differs from the 1 January offset, and no more than were probed |
| `Tenpo.EarlyExitAgreesWithFullScan` | tenpo.go:52-57 | some probe differs from the baseline exactly when the full scan finds at least one differing month, so stopping at the first mismatch loses nothing |
| `Tenpo.ShiftIffOffsetVaries` | tenpo.go:51-58 | a shift is detected exactly when the offset on the 1st of some month of the year differs from the offset on 1 January |
| `Tenpo.ProbeOffsets` | tenpo.go:51-58 | the loop with early exit answers true exactly when some month of the probe table has an offset different from the 1 January baseline |
| `Tenpo.LocalCache.constructor` | tenpo.go:26 | the cache starts empty and satisfies the soundness invariant, and no resolution has happened yet |
| `Tenpo.LocalCache.IsTZDaylightSavingInYear` | tenpo.go:37-60 | a hit returns the stored value with no error, without resolving and without changes. A miss resolves once. A failed resolution returns false and the error and stores nothing. A successful miss returns the sampler's answer and stores it under the key, changing no other entry. Every answer equals the uncached one, no entry is removed or changed, and the soundness invariant is preserved |
| `Tenpo.LocalCache.IsTZDaylightSaving` | tenpo.go:30-33 | for the year the caller supplies as the current one, the same answer as the uncached computation. On success the cache is the old one with only this key set to the answer. On failure the cache is unchanged. A hit does not consult the resolver; a miss consults it once. The cache only grows |
| `Tenpo.CallTwice` | tenpo_test.go:42-57 | after a successful call, a second call with the same year and timezone gives the same answer and the key holds that answer. The second call is served from the cache: the resolver is consulted again only if the first call was a miss, and then exactly once in all. After a failed call the second one fails with the same error and nothing is stored |

## Left out

- The timezone database behind `time.LoadLocation` and `Zone()`. They are the abstract functions `load` and `zoneOffset`. So the concrete scenarios of tenpo_test.go (New York 2000 is true, New York and Los Angeles 1900 are false, Hong Kong is false, Taipei 2016 is false, "Dummy" fails) cannot be stated.
- `time.Now()` in `IsTZDaylightSaving`. The current year is the parameter `currentYear`.
- Concurrency. The Go map is unsynchronised and the package has no locking. The model is single-threaded.
- The contents of the error value. The resolver's error message is passed through unchanged, as the Go code returns `err` unchanged.
- A resolver or offset source whose answer changes between calls, such as a transient I/O failure in `time.LoadLocation` followed by a success. `load` and `zoneOffset` are fixed for the life of a `LocalCache`. The clauses that say each answer equals the uncached `Detect`, and `CallTwice`'s clause that a failed call fails again with the same error, depend on that.
- Go strings are byte sequences, while the model's identifiers and keys are `seq<char>`. No behaviour depends on this: key equality and the injectivity of keys carry over unchanged.
- The width of Go's `int` for the year. Years are unbounded integers; the key text and the cache logic do not depend on the width, and date arithmetic lives inside the abstract `zoneOffset`.
- In the Go code `localCache` is a single package-level variable. Here it is an object built once with its timezone database, so its invariant can be stated.
