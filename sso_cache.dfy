/**
 * The AWS CLI SSO token cache and the device-authorization login
 * (src/sso_cache.rs). The cache is the directory `$HOME/.aws/sso/cache`; the
 * login follows the OAuth 2.0 Device Authorization Grant (RFC 8628,
 * sections 3.4 and 3.5), polling `create-token` until it succeeds, fails
 * for another reason, or the device code expires.
 *
 * The file system is a map from directory path to its listing; JSON and
 * RFC 3339 parsing and formatting are supplied functions; clock readings and
 * CLI outcomes are supplied sequences (`clock(i)` is the i-th reading).
 */
module SsoCache {
  import opened Wrappers
  import opened Errors
  import opened Strings
  import opened Seqs
  import opened Paths
  import opened Model

  const U64Modulus: int := 0x1_0000_0000_0000_0000

  /** A JSON value as far as the cache reader looks into it. */
  datatype Json = JString(text: string) | JObject(members: map<string, Json>) | JOther

  /** `value.get(key).and_then(as_str)`: a string member of an object. */
  function StrMember(v: Json, key: string): (r: Option<string>)
    ensures r.Some? <==> v.JObject? && key in v.members && v.members[key].JString?
  {
    if v.JObject? && key in v.members && v.members[key].JString? then Some(v.members[key].text) else None
  }

  /** A readable directory entry: its file name and, when the file reads, its contents. */
  datatype DirEntry = DirEntry(fileName: string, contents: Option<string>)

  /**
   * A directory listing; `None` items are entries whose iteration failed,
   * which `read_dir(..).flatten()` skips.
   */
  type Listing = seq<Option<DirEntry>>

  /** Directory path to listing; a path absent from the map cannot be read. */
  type FileSystem = map<string, Listing>

  // ---------------------------------------------------------------------------
  // Paths

  /** `sso_cache_dir`: `$HOME/.aws/sso/cache`, or `MissingHome`. */
  function SsoCacheDir(home: Option<string>): (r: Result<string>)
    ensures home.None? <==> r == Err(MissingHome)
    ensures home.Some? && home.value != [] ==> r.Ok? && StartsWith(r.value, home.value)
  {
    match home
    case None => Err(MissingHome)
    case Some(h) =>
      var p := JoinPath(JoinPath(JoinPath(h, ".aws"), "sso"), "cache");
      if h == [] then Ok(p)
      else
        assert ".aws"[0] != '/' && "sso"[0] != '/' && "cache"[0] != '/';
        JoinPathUnder(h, ".aws");
        JoinPathUnder(JoinPath(h, ".aws"), "sso");
        JoinPathUnder(JoinPath(JoinPath(h, ".aws"), "sso"), "cache");
        Ok(p)
  }

  // ---------------------------------------------------------------------------
  // read_cache_entries

  /**
   * What one directory entry contributes: a cache entry exactly when the file
   * has the "json" extension, reads, parses, has a `startUrl` equal to the
   * requested one (a missing `startUrl` counts as ""), and has
   * `accessToken`, `region` and `expiresAt` as strings.
   */
  function EntryOf(item: Option<DirEntry>, startUrl: string, parseJson: string -> Option<Json>): (r: Option<CacheEntry>)
    ensures r.Some? <==>
      item.Some? && Extension(item.value.fileName) == Some("json") && item.value.contents.Some?
      && parseJson(item.value.contents.value).Some?
      && StrMember(parseJson(item.value.contents.value).value, "startUrl").GetOr("") == startUrl
      && StrMember(parseJson(item.value.contents.value).value, "accessToken").Some?
      && StrMember(parseJson(item.value.contents.value).value, "region").Some?
      && StrMember(parseJson(item.value.contents.value).value, "expiresAt").Some?
    ensures r.Some? ==>
      var v := parseJson(item.value.contents.value).value;
      r.value == CacheEntry(StrMember(v, "accessToken").value, StrMember(v, "expiresAt").value,
                            StrMember(v, "region").value)
  {
    match item
    case None => None
    case Some(e) =>
      if Extension(e.fileName) != Some("json") then None
      else match e.contents
        case None => None
        case Some(data) =>
          match parseJson(data)
          case None => None
          case Some(v) =>
            if StrMember(v, "startUrl").GetOr("") != startUrl then None
            else match (StrMember(v, "accessToken"), StrMember(v, "region"), StrMember(v, "expiresAt"))
              case (Some(token), Some(region), Some(expiresAt)) => Some(CacheEntry(token, expiresAt, region))
              case _ => None
  }

  function Reader(startUrl: string, parseJson: string -> Option<Json>): Option<DirEntry> -> Option<CacheEntry>
  {
    item => EntryOf(item, startUrl, parseJson)
  }

  /** `read_cache_entries` as a loop over the listing, pushing each accepted entry. */
  method ReadCacheEntries(fs: FileSystem, dir: string, startUrl: string, parseJson: string -> Option<Json>)
    returns (r: Result<seq<CacheEntry>>)
    ensures dir !in fs <==> r == Err(MissingCache)
    ensures dir in fs ==> r == Ok(FilterMap(fs[dir], Reader(startUrl, parseJson)))
  {
    if dir !in fs {
      return Err(MissingCache);
    }
    var listing := fs[dir];
    var read := Reader(startUrl, parseJson);
    var entries: seq<CacheEntry> := [];
    var i := 0;
    while i < |listing|
      invariant 0 <= i <= |listing|
      invariant entries == FilterMap(listing[..i], read)
    {
      var e := read(listing[i]);
      assert listing[..i + 1] == listing[..i] + [listing[i]];
      FilterMapSnoc(listing[..i], listing[i], read);
      if e.Some? {
        entries := entries + [e.value];
      }
      i := i + 1;
    }
    assert listing[..i] == listing;
    r := Ok(entries);
  }

  /** With an empty requested start URL, a file lacking `startUrl` still matches. */
  lemma {:induction false} MissingStartUrlMatchesEmpty(name: string, data: string, parseJson: string -> Option<Json>,
                                    token: string, region: string, expiresAt: string)
    requires Extension(name) == Some("json")
    requires parseJson(data) == Some(JObject(map["accessToken" := JString(token), "region" := JString(region),
                                                 "expiresAt" := JString(expiresAt)]))
    ensures EntryOf(Some(DirEntry(name, Some(data))), "", parseJson) == Some(CacheEntry(token, expiresAt, region))
  {
  }

  // ---------------------------------------------------------------------------
  // is_expired and aws_time_to_epoch

  /** `unix_timestamp() as u64`: the two's-complement reinterpretation of an i64. */
  function AsU64(t: int): (u: nat)
    ensures u < U64Modulus
    ensures 0 <= t < U64Modulus ==> u == t
    ensures -0x8000_0000_0000_0000 <= t < 0 ==> u == t + U64Modulus
  {
    t % U64Modulus
  }

  /**
   * `is_expired` as written: the parsed expiry is cast to u64, so an expiry
   * before 1970 wraps to a huge value and never counts as expired.
   */
  function IsExpiredAsWritten(expiresAt: string, now: nat, parseTime: string -> Option<int>): (r: Result<bool>)
    ensures parseTime(expiresAt).None? <==> r == Err(CacheParse(expiresAt))
    ensures (parseTime(expiresAt).Some? && InTimeRange(parseTime(expiresAt).value) && parseTime(expiresAt).value < 0
             && now < U64Modulus + parseTime(expiresAt).value) ==> r == Ok(false)
  {
    match parseTime(expiresAt)
    case None => Err(CacheParse(expiresAt))
    case Some(t) => Ok(now >= AsU64(t))
  }

  /** The wrap-around in action: an expiry one second before 1970 is taken as valid at any time now. */
  lemma {:induction false} PreEpochNeverExpires(expiresAt: string, now: nat, parseTime: string -> Option<int>)
    requires parseTime(expiresAt) == Some(-1) && now < U64Modulus - 1
    ensures IsExpiredAsWritten(expiresAt, now, parseTime) == Ok(false)
    ensures IsExpired(expiresAt, now, parseTime) == Ok(true)
  {
  }

  /**
   * `is_expired`, as evidently intended: an entry is expired iff the current
   * time has reached its expiry; an unparsable `expiresAt` is a
   * `CacheParse` error naming it.
   */
  function IsExpired(expiresAt: string, now: nat, parseTime: string -> Option<int>): (r: Result<bool>)
    ensures parseTime(expiresAt).None? <==> r == Err(CacheParse(expiresAt))
    ensures parseTime(expiresAt).Some? ==> r == Ok(now >= parseTime(expiresAt).value)
  {
    match parseTime(expiresAt)
    case None => Err(CacheParse(expiresAt))
    case Some(t) => Ok(now >= t)
  }

  /** For expiries from 1970 on the two readings agree; the boundary second is already expired. */
  lemma {:induction false} IsExpiredAgreesAfterEpoch(expiresAt: string, now: nat, parseTime: string -> Option<int>)
    requires parseTime(expiresAt).Some? && InTimeRange(parseTime(expiresAt).value) && parseTime(expiresAt).value >= 0
    ensures IsExpiredAsWritten(expiresAt, now, parseTime) == IsExpired(expiresAt, now, parseTime)
    ensures now == parseTime(expiresAt).value ==> IsExpired(expiresAt, now, parseTime) == Ok(true)
  {
  }

  // ---------------------------------------------------------------------------
  // load_valid_cache

  /** The expiry test `load_valid_cache` applies to each entry, at time `now`. */
  function Expiry(now: nat, parseTime: string -> Option<int>): string -> Result<bool>
  {
    expiresAt => IsExpired(expiresAt, now, parseTime)
  }

  /** The same test with the u64 cast of the code as written. */
  function ExpiryAsWritten(now: nat, parseTime: string -> Option<int>): string -> Result<bool>
  {
    expiresAt => IsExpiredAsWritten(expiresAt, now, parseTime)
  }

  /**
   * The selection `load_valid_cache` makes over the entries in directory
   * order, for an expiry test `expired`: the first entry that is not
   * expired; a test that fails on an entry before it aborts with that
   * error; none at all is `MissingCache`.
   */
  function FirstValid(entries: seq<CacheEntry>, expired: string -> Result<bool>): Result<CacheEntry>
    decreases |entries|
  {
    if entries == [] then Err(MissingCache)
    else match expired(entries[0].expiresAt)
      case Err(e) => Err(e)
      case Ok(isExpired) => if isExpired then FirstValid(entries[1..], expired) else Ok(entries[0])
  }

  /** `load_valid_cache`: reads the cache directory, then scans for the first valid entry. */
  method LoadValidCache(home: Option<string>, fs: FileSystem, startUrl: string, now: nat,
                        parseJson: string -> Option<Json>, parseTime: string -> Option<int>)
    returns (r: Result<CacheEntry>)
    ensures home.None? ==> r == Err(MissingHome)
    ensures home.Some? && SsoCacheDir(home).value !in fs ==> r == Err(MissingCache)
    ensures home.Some? && SsoCacheDir(home).value in fs ==>
      r == FirstValid(FilterMap(fs[SsoCacheDir(home).value], Reader(startUrl, parseJson)), Expiry(now, parseTime))
  {
    var dir := SsoCacheDir(home);
    if dir.Err? {
      return Err(dir.error);
    }
    var read := ReadCacheEntries(fs, dir.value, startUrl, parseJson);
    if read.Err? {
      return Err(read.error);
    }
    var entries := read.value;
    ghost var expiry := Expiry(now, parseTime);
    var best: Option<CacheEntry> := None;
    var i := 0;
    while i < |entries|
      invariant 0 <= i <= |entries|
      invariant FirstValid(entries, expiry) == FirstValid(entries[i..], expiry)
      decreases |entries| - i
    {
      var expired := IsExpired(entries[i].expiresAt, now, parseTime);
      assert expired == expiry(entries[i..][0].expiresAt);
      if expired.Err? {
        return Err(expired.error);
      }
      if expired.value {
        assert entries[i..][1..] == entries[i + 1..];
        i := i + 1;
        continue;
      }
      best := Some(entries[i]);
      break;
    }
    match best
    case Some(entry) => r := Ok(entry);
    case None => r := Err(MissingCache);
  }

  /** An entry is selected only if it is unexpired and every entry before it was tested expired. */
  lemma {:induction false} FirstValidIsFirst(entries: seq<CacheEntry>, expired: string -> Result<bool>)
    requires FirstValid(entries, expired).Ok?
    ensures exists i :: (0 <= i < |entries| && entries[i] == FirstValid(entries, expired).value
      && expired(entries[i].expiresAt) == Ok(false)
      && forall j :: 0 <= j < i ==> expired(entries[j].expiresAt) == Ok(true))
    decreases |entries|
  {
    if expired(entries[0].expiresAt) == Ok(true) {
      FirstValidIsFirst(entries[1..], expired);
      var i :| 0 <= i < |entries[1..]| && entries[1..][i] == FirstValid(entries[1..], expired).value
        && expired(entries[1..][i].expiresAt) == Ok(false)
        && forall j :: 0 <= j < i ==> expired(entries[1..][j].expiresAt) == Ok(true);
      assert entries[i + 1] == entries[1..][i];
      forall j | 0 <= j < i + 1 ensures expired(entries[j].expiresAt) == Ok(true) {
        if j > 0 {
          assert entries[j] == entries[1..][j - 1];
        }
      }
    }
  }

  /** Entries after the first valid one are never considered. */
  lemma {:induction false} FirstValidIgnoresLater(entries: seq<CacheEntry>, later: seq<CacheEntry>,
                                                 expired: string -> Result<bool>)
    requires FirstValid(entries, expired).Ok?
    ensures FirstValid(entries + later, expired) == FirstValid(entries, expired)
    decreases |entries|
  {
    assert (entries + later)[0] == entries[0];
    if expired(entries[0].expiresAt) == Ok(true) {
      assert (entries + later)[1..] == entries[1..] + later;
      FirstValidIgnoresLater(entries[1..], later, expired);
    }
  }

  /** No entry unexpired, all parsable: `MissingCache`. */
  lemma {:induction false} AllExpiredIsMissing(entries: seq<CacheEntry>, now: nat, parseTime: string -> Option<int>)
    requires forall i :: 0 <= i < |entries| ==> IsExpired(entries[i].expiresAt, now, parseTime) == Ok(true)
    ensures FirstValid(entries, Expiry(now, parseTime)) == Err(MissingCache)
    decreases |entries|
  {
    if entries != [] {
      assert Expiry(now, parseTime)(entries[0].expiresAt) == Ok(true);
      AllExpiredIsMissing(entries[1..], now, parseTime);
    }
  }

  /** An unparsable expiry reached before any valid entry aborts the lookup instead of being skipped. */
  lemma {:induction false} UnparsableAborts(entries: seq<CacheEntry>, k: nat, now: nat, parseTime: string -> Option<int>)
    requires k < |entries| && parseTime(entries[k].expiresAt).None?
    requires forall j :: 0 <= j < k ==> IsExpired(entries[j].expiresAt, now, parseTime) == Ok(true)
    ensures FirstValid(entries, Expiry(now, parseTime)) == Err(CacheParse(entries[k].expiresAt))
    decreases k
  {
    if k > 0 {
      assert Expiry(now, parseTime)(entries[0].expiresAt) == Ok(true);
      UnparsableAborts(entries[1..], k - 1, now, parseTime);
    } else {
      assert Expiry(now, parseTime)(entries[0].expiresAt) == Err(CacheParse(entries[0].expiresAt));
    }
  }

  /** Two expiry tests that agree on every entry make the same selection. */
  lemma {:induction false} FirstValidSameTests(entries: seq<CacheEntry>, e1: string -> Result<bool>,
                                              e2: string -> Result<bool>)
    requires forall i :: 0 <= i < |entries| ==> e1(entries[i].expiresAt) == e2(entries[i].expiresAt)
    ensures FirstValid(entries, e1) == FirstValid(entries, e2)
    decreases |entries|
  {
    if entries != [] {
      assert e1(entries[0].expiresAt) == e2(entries[0].expiresAt);
      FirstValidSameTests(entries[1..], e1, e2);
    }
  }

  /**
   * The selection of the code as written and the corrected one agree on a
   * cache whose parsable expiries all lie in 1970 or later.
   */
  lemma {:induction false} LoadAgreesAfterEpoch(entries: seq<CacheEntry>, now: nat, parseTime: string -> Option<int>)
    requires forall i :: 0 <= i < |entries| && parseTime(entries[i].expiresAt).Some? ==>
      InTimeRange(parseTime(entries[i].expiresAt).value) && parseTime(entries[i].expiresAt).value >= 0
    ensures FirstValid(entries, ExpiryAsWritten(now, parseTime)) == FirstValid(entries, Expiry(now, parseTime))
  {
    forall i | 0 <= i < |entries|
      ensures ExpiryAsWritten(now, parseTime)(entries[i].expiresAt) == Expiry(now, parseTime)(entries[i].expiresAt)
    {
      if parseTime(entries[i].expiresAt).Some? {
        IsExpiredAgreesAfterEpoch(entries[i].expiresAt, now, parseTime);
      }
    }
    FirstValidSameTests(entries, ExpiryAsWritten(now, parseTime), Expiry(now, parseTime));
  }

  /**
   * The wrap-around reaches the selection: a lone entry that expired one
   * second before 1970 is returned by the code as written, while the
   * corrected selection finds no valid entry.
   */
  lemma {:induction false} PreEpochEntrySelected(entry: CacheEntry, now: nat, parseTime: string -> Option<int>)
    requires parseTime(entry.expiresAt) == Some(-1) && now < U64Modulus - 1
    ensures FirstValid([entry], ExpiryAsWritten(now, parseTime)) == Ok(entry)
    ensures FirstValid([entry], Expiry(now, parseTime)) == Err(MissingCache)
  {
    PreEpochNeverExpires(entry.expiresAt, now, parseTime);
    assert [entry][1..] == [];
  }

  // ---------------------------------------------------------------------------
  // device_authorization

  /**
   * `SystemTime::checked_add(..).unwrap_or(now)` in whole seconds: `now`
   * moved on by `seconds`, or `now` itself when that passes `maxTime`, the
   * latest time the platform's `SystemTime` can hold.
   */
  function CheckedAddOr(now: nat, seconds: nat, maxTime: nat): (r: nat)
    ensures now + seconds <= maxTime ==> r == now + seconds
    ensures now + seconds > maxTime ==> r == now
    ensures now <= r
  {
    if now + seconds <= maxTime then now + seconds else now
  }

  /** `create-token` failed with a non-zero CLI exit: authorization still pending (or slow_down). */
  predicate Pending(o: Result<AwsCreateToken>)
  {
    o.Err? && o.error.AwsCliOutput?
  }

  /** The deadline check of iteration `j` (clock reading `1 + j`) lets the loop go on. */
  predicate CheckPasses(clock: nat -> nat, deadline: nat, j: nat)
  {
    clock(1 + j) <= deadline
  }

  /**
   * Iteration `k` of the poll loop ends it: its deadline check fails, or its
   * poll answers anything but pending.
   */
  predicate LoopEndsAt(clock: nat -> nat, deadline: nat, poll: nat -> Result<AwsCreateToken>, k: nat)
  {
    !CheckPasses(clock, deadline, k) || !Pending(poll(k))
  }

  /** Some iteration ends the poll loop. */
  ghost predicate PollingEnds(clock: nat -> nat, deadline: nat, poll: nat -> Result<AwsCreateToken>)
  {
    exists k: nat :: LoopEndsAt(clock, deadline, poll, k)
  }

  /**
   * How a login ends: with the value the code returns, or in the panic of
   * `OffsetDateTime::from`, which a time past the `time` crate's range
   * (9999-12-31T23:59:59Z) causes.
   */
  datatype Login = Returned(result: Result<CacheEntry>) | Panicked

  /**
   * What a final `create-token` answer makes of the login: a token becomes a
   * cache entry for the region, expiring `expires_in` seconds after the clock
   * reading `now` taken then, or at `now` when that would pass `maxTime`
   * (RFC 3339 text, "" when it cannot be formatted); an expiry past the
   * `time` crate's range panics; an error is returned as it is.
   */
  function Finish(answer: Result<AwsCreateToken>, now: nat, maxTime: nat, region: string,
                  rfc3339: nat -> Option<string>)
    : (r: Login)
    ensures answer.Err? ==> r == Returned(Err(answer.error))
    ensures r.Panicked? <==> answer.Ok? && CheckedAddOr(now, answer.value.expiresIn, maxTime) > MaxUnixTimestamp
    ensures answer.Ok? && !r.Panicked? ==>
      var at := CheckedAddOr(now, answer.value.expiresIn, maxTime);
      && r.result.Ok?
      && r.result.value.accessToken == answer.value.accessToken && r.result.value.region == region
      && r.result.value.expiresAt == rfc3339(at).GetOr("")
  {
    match answer
    case Ok(token) =>
      var at := CheckedAddOr(now, token.expiresIn, maxTime);
      if at > MaxUnixTimestamp then Panicked
      else Returned(Ok(CacheEntry(token.accessToken, rfc3339(at).GetOr(""), region)))
    case Err(e) => Returned(Err(e))
  }

  /** While the latest representable time is within the `time` crate's range, a login never panics. */
  lemma FinishPanicsOnlyPastRange(answer: Result<AwsCreateToken>, now: nat, maxTime: nat, region: string,
                                  rfc3339: nat -> Option<string>)
    requires now <= maxTime <= MaxUnixTimestamp
    ensures Finish(answer, now, maxTime, region, rfc3339).Returned?
  {
    if answer.Ok? {
      assert CheckedAddOr(now, answer.value.expiresIn, maxTime) <= maxTime;
    }
  }

  /** A token valid for a year, issued at the last second of 9999, panics where the clock reaches further. */
  lemma FinishPanicsPastYear9999(token: AwsCreateToken, region: string, rfc3339: nat -> Option<string>)
    requires token.expiresIn == 31536000
    ensures Finish(Ok(token), MaxUnixTimestamp, MaxUnixTimestamp + 31536000, region, rfc3339) == Panicked
  {
  }

  /**
   * `device_authorization`: registers a client, starts the authorization,
   * then polls `create-token` while the deadline `clock(0) + expires_in`
   * (or `clock(0)` when that would pass `maxTime`) has not passed, sleeping
   * `max(interval, 1)` seconds after each pending answer; a token whose
   * expiry leaves the `time` crate's range ends the login in a panic.
   *
   * `polls` is the number of `create-token` calls, `sleeps` the sleeps made.
   * The environment must end the polling (the deadline passes or an answer
   * other than pending comes), as it does in practice.
   */
  method DeviceAuthorization(
    region: string,
    register: Result<AwsRegisterClient>,
    start: Result<AwsStartDeviceAuthorization>,
    clock: nat -> nat,
    poll: nat -> Result<AwsCreateToken>,
    maxTime: nat,
    rfc3339: nat -> Option<string>)
    returns (r: Login, polls: nat, sleeps: seq<nat>)
    requires register.Ok? && start.Ok? ==>
      PollingEnds(clock, CheckedAddOr(clock(0), start.value.expiresIn, maxTime), poll)
    ensures register.Err? ==> r == Returned(Err(register.error)) && polls == 0 && sleeps == []
    ensures register.Ok? && start.Err? ==> r == Returned(Err(start.error)) && polls == 0 && sleeps == []
    ensures register.Ok? && start.Ok? ==>
      var deadline := CheckedAddOr(clock(0), start.value.expiresIn, maxTime);
      var interval := if start.value.interval < 1 then 1 else start.value.interval;
      // every poll was made after a passing deadline check
      && (forall j :: 0 <= j < polls ==> CheckPasses(clock, deadline, j))
      // one sleep of max(interval, 1) seconds follows each pending answer, and only those
      && |sleeps| <= polls
      && (forall j :: 0 <= j < |sleeps| ==> sleeps[j] == interval && Pending(poll(j)))
      // either the deadline check after the last pending answer failed ...
      && (|sleeps| == polls ==> r == Returned(Err(ExpiredCache)) && !CheckPasses(clock, deadline, polls))
      // ... or the last answer was final and decides the result
      && (|sleeps| != polls ==>
            |sleeps| == polls - 1 && !Pending(poll(polls - 1))
            && r == Finish(poll(polls - 1), clock(1 + polls), maxTime, region, rfc3339))
  {
    polls := 0;
    sleeps := [];
    if register.Err? {
      return Returned(Err(register.error)), polls, sleeps;
    }
    if start.Err? {
      return Returned(Err(start.error)), polls, sleeps;
    }
    var auth := start.value;
    var deadline := CheckedAddOr(clock(0), auth.expiresIn, maxTime);
    var interval := if auth.interval < 1 then 1 else auth.interval;
    ghost var bound: nat :| LoopEndsAt(clock, deadline, poll, bound);
    while true
      invariant |sleeps| == polls && polls <= bound
      invariant forall j :: 0 <= j < polls ==> CheckPasses(clock, deadline, j)
      invariant forall j :: 0 <= j < |sleeps| ==> sleeps[j] == interval && Pending(poll(j))
      decreases bound - polls
    {
      if clock(1 + polls) > deadline {
        return Returned(Err(ExpiredCache)), polls, sleeps;
      }
      var outcome := poll(polls);
      polls := polls + 1;
      match outcome
      case Ok(token) =>
        var at := CheckedAddOr(clock(1 + polls), token.expiresIn, maxTime);
        if at > MaxUnixTimestamp {
          return Panicked, polls, sleeps;
        }
        return Returned(Ok(CacheEntry(token.accessToken, rfc3339(at).GetOr(""), region))), polls, sleeps;
      case Err(err) =>
        if err.AwsCliOutput? {
          sleeps := sleeps + [interval];
          continue;
        }
        return Returned(Err(err)), polls, sleeps;
    }
  }
}
