/**
 * The roles cache (src/roles_cache.rs): the flattened role choices of one
 * start URL, stored as one JSON file `roles-<sha1 hex>.json` in
 * `$XDG_CACHE_HOME/roleman` (or `$HOME/.cache/roleman`), trusted for 24
 * hours.
 *
 * Times are Unix seconds supplied by the caller; SHA-1 and the JSON
 * encoding are supplied functions.
 */
module RolesCache {
  import opened Wrappers
  import opened Errors
  import opened Strings
  import opened Paths
  import opened FileStore
  import opened Model

  /** `ROLES_CACHE_TTL`: 24 hours. */
  const RolesCacheTtl: nat := 24 * 60 * 60

  datatype CachedRole = CachedRole(accountId: string, accountName: string, roleName: string)

  /** The file's record: when the list was fetched and the list itself. */
  datatype CachedRoles = CachedRoles(fetchedAt: nat, roles: seq<CachedRole>)

  /** `roleman_cache_dir`: `XDG_CACHE_HOME` wins over `HOME`; neither is `MissingHome`. */
  function RolemanCacheDir(xdgCacheHome: Option<string>, home: Option<string>): (r: Result<string>)
    ensures xdgCacheHome.Some? ==> r == Ok(JoinPath(xdgCacheHome.value, "roleman"))
    ensures xdgCacheHome.None? && home.Some? ==> r == Ok(JoinPath(JoinPath(home.value, ".cache"), "roleman"))
    ensures r.Err? <==> xdgCacheHome.None? && home.None?
    ensures r.Err? ==> r.error == MissingHome
    ensures r.Ok? ==> EndsWith(r.value, "roleman")
  {
    assert "roleman"[0] != '/';
    match xdgCacheHome
    case Some(dir) => Ok(JoinPath(dir, "roleman"))
    case None =>
      match home
      case None => Err(MissingHome)
      case Some(h) => Ok(JoinPath(JoinPath(h, ".cache"), "roleman"))
  }

  /** `cache_filename`: "roles-" + the hex SHA-1 of the start URL + ".json". */
  function CacheFilename(startUrl: string, sha1Hex: string -> string): (r: string)
    ensures StartsWith(r, "roles-") && EndsWith(r, ".json") && |r| == |sha1Hex(startUrl)| + 11
    ensures r[6..|r| - 5] == sha1Hex(startUrl)
  {
    "roles-" + sha1Hex(startUrl) + ".json"
  }

  /** Two start URLs share a cache file exactly when their digests are equal. */
  lemma {:induction false} CacheFilenameCollision(a: string, b: string, sha1Hex: string -> string)
    ensures CacheFilename(a, sha1Hex) == CacheFilename(b, sha1Hex) <==> sha1Hex(a) == sha1Hex(b)
  {
    if CacheFilename(a, sha1Hex) == CacheFilename(b, sha1Hex) {
      assert sha1Hex(a) == CacheFilename(a, sha1Hex)[6..|CacheFilename(a, sha1Hex)| - 5];
    }
  }

  /** The path of the cache file of a start URL, when the cache directory is known. */
  function CachePath(xdgCacheHome: Option<string>, home: Option<string>, startUrl: string,
                     sha1Hex: string -> string): Result<string>
  {
    match RolemanCacheDir(xdgCacheHome, home)
    case Err(e) => Err(e)
    case Ok(dir) => Ok(JoinPath(dir, CacheFilename(startUrl, sha1Hex)))
  }

  function ToChoice(entry: CachedRole): RoleChoice
  {
    RoleChoice(entry.accountId, entry.accountName, entry.roleName)
  }

  function ToCachedRole(choice: RoleChoice): CachedRole
  {
    CachedRole(choice.accountId, choice.accountName, choice.roleName)
  }

  /** The stored list read back as choices, field for field and in order. */
  function ToChoices(roles: seq<CachedRole>): (r: seq<RoleChoice>)
    ensures |r| == |roles|
    ensures forall i :: 0 <= i < |roles| ==>
      r[i].accountId == roles[i].accountId && r[i].accountName == roles[i].accountName
      && r[i].roleName == roles[i].roleName
  {
    seq(|roles|, i requires 0 <= i < |roles| => ToChoice(roles[i]))
  }

  /** The choices as stored, field for field and in order. */
  function ToCachedRoles(choices: seq<RoleChoice>): (r: seq<CachedRole>)
    ensures |r| == |choices|
    ensures forall i :: 0 <= i < |choices| ==>
      r[i].accountId == choices[i].accountId && r[i].accountName == choices[i].accountName
      && r[i].roleName == choices[i].roleName
  {
    seq(|choices|, i requires 0 <= i < |choices| => ToCachedRole(choices[i]))
  }

  /** Storing and reading back a list of choices gives the same list. */
  lemma {:induction false} ChoicesRoundTrip(choices: seq<RoleChoice>)
    ensures ToChoices(ToCachedRoles(choices)) == choices
  {
    var back := ToChoices(ToCachedRoles(choices));
    forall i | 0 <= i < |choices| ensures back[i] == choices[i] {
    }
  }

  /** `now.saturating_sub(fetched_at)`: the age, 0 for a record stamped in the future. */
  function Age(now: nat, fetchedAt: nat): (age: nat)
    ensures now >= fetchedAt ==> age + fetchedAt == now
    ensures now < fetchedAt ==> age == 0
    ensures age <= now
  {
    if now >= fetchedAt then now - fetchedAt else 0
  }

  /**
   * `load_cached_roles_with_age`: the cached choices of a start URL and their
   * age, whatever that age. A missing, unreadable or undecodable file is
   * `Ok(None)`; only an unknown cache directory is an error.
   */
  function LoadCachedRolesWithAge(files: Files, xdgCacheHome: Option<string>, home: Option<string>,
                                  startUrl: string, now: nat, sha1Hex: string -> string,
                                  decode: string -> Option<CachedRoles>)
    : (r: Result<Option<(seq<RoleChoice>, nat)>>)
    ensures r.Err? <==> xdgCacheHome.None? && home.None?
    ensures r.Err? ==> r.error == MissingHome
    ensures r.Ok? ==>
      var path := CachePath(xdgCacheHome, home, startUrl, sha1Hex).value;
      && (r.value.None? <==> ReadToString(files, path).None? || decode(ReadToString(files, path).value).None?)
      && (r.value.Some? ==>
            var cached := decode(ReadToString(files, path).value).value;
            r.value.value == (ToChoices(cached.roles), Age(now, cached.fetchedAt)))
  {
    match CachePath(xdgCacheHome, home, startUrl, sha1Hex)
    case Err(e) => Err(e)
    case Ok(path) =>
      match ReadToString(files, path)
      case None => Ok(None)
      case Some(data) =>
        match decode(data)
        case None => Ok(None)
        case Some(cached) => Ok(Some((ToChoices(cached.roles), Age(now, cached.fetchedAt))))
  }

  /**
   * `load_cached_roles`: the any-age load, kept only when the age is within
   * the TTL; the boundary second still counts as fresh.
   */
  function LoadCachedRoles(files: Files, xdgCacheHome: Option<string>, home: Option<string>,
                           startUrl: string, now: nat, sha1Hex: string -> string,
                           decode: string -> Option<CachedRoles>)
    : (r: Result<Option<(seq<RoleChoice>, nat)>>)
    ensures
      var withAge := LoadCachedRolesWithAge(files, xdgCacheHome, home, startUrl, now, sha1Hex, decode);
      && (r.Err? <==> withAge.Err?)
      && (r.Ok? && r.value.Some? <==> withAge.Ok? && withAge.value.Some? && withAge.value.value.1 <= RolesCacheTtl)
      && (r.Ok? && r.value.Some? ==> r.value.value == withAge.value.value)
  {
    match LoadCachedRolesWithAge(files, xdgCacheHome, home, startUrl, now, sha1Hex, decode)
    case Err(e) => Err(e)
    case Ok(cached) =>
      match cached
      case Some(hit) => if hit.1 <= RolesCacheTtl then Ok(Some(hit)) else Ok(None)
      case None => Ok(None)
  }

  /**
   * `save_cached_roles`: creates the cache directory (`dirCreated` is
   * whether that succeeds), encodes the choices stamped with `now` and
   * overwrites the start URL's cache file (`writeSucceeds` is the write's
   * outcome). A failed mkdir is `MissingCache`; a failed encoding or write
   * is `CacheParse` naming the file.
   */
  method SaveCachedRoles(disk: Disk, xdgCacheHome: Option<string>, home: Option<string>, startUrl: string,
                         choices: seq<RoleChoice>, now: nat, sha1Hex: string -> string,
                         encode: CachedRoles -> Option<string>, dirCreated: bool, writeSucceeds: bool)
    returns (r: Result<()>)
    modifies disk
    ensures xdgCacheHome.None? && home.None? ==> r == Err(MissingHome) && disk.files == old(disk.files)
    ensures CachePath(xdgCacheHome, home, startUrl, sha1Hex).Ok? ==>
      var path := CachePath(xdgCacheHome, home, startUrl, sha1Hex).value;
      var data := encode(CachedRoles(now, ToCachedRoles(choices)));
      && (!dirCreated ==> r == Err(MissingCache) && disk.files == old(disk.files))
      && (dirCreated && data.None? ==> r == Err(CacheParse(path)) && disk.files == old(disk.files))
      && (dirCreated && data.Some? && !writeSucceeds ==> r == Err(CacheParse(path)) && disk.files == old(disk.files))
      && (dirCreated && data.Some? && writeSucceeds ==> r == Ok(()) && disk.files == old(disk.files)[path := data])
  {
    var dir := RolemanCacheDir(xdgCacheHome, home);
    if dir.Err? {
      return Err(dir.error);
    }
    if !dirCreated {
      return Err(MissingCache);
    }
    var path := JoinPath(dir.value, CacheFilename(startUrl, sha1Hex));
    var cached := CachedRoles(now, ToCachedRoles(choices));
    var data := encode(cached);
    if data.None? {
      return Err(CacheParse(path));
    }
    var ok := disk.Write(path, data.value, writeSucceeds);
    if !ok {
      return Err(CacheParse(path));
    }
    r := Ok(());
  }

  /**
   * Saving then loading with age gives back the same choices, in the same
   * order, aged by the time elapsed since the save, when the JSON decoder
   * reads back what the encoder wrote.
   */
  lemma {:induction false} SaveLoadRoundTrip(files: Files, xdgCacheHome: Option<string>, home: Option<string>, startUrl: string,
                          choices: seq<RoleChoice>, savedAt: nat, now: nat, sha1Hex: string -> string,
                          encode: CachedRoles -> Option<string>, decode: string -> Option<CachedRoles>)
    requires CachePath(xdgCacheHome, home, startUrl, sha1Hex).Ok?
    requires encode(CachedRoles(savedAt, ToCachedRoles(choices))).Some?
    requires decode(encode(CachedRoles(savedAt, ToCachedRoles(choices))).value)
             == Some(CachedRoles(savedAt, ToCachedRoles(choices)))
    ensures
      var path := CachePath(xdgCacheHome, home, startUrl, sha1Hex).value;
      var saved := files[path := encode(CachedRoles(savedAt, ToCachedRoles(choices)))];
      LoadCachedRolesWithAge(saved, xdgCacheHome, home, startUrl, now, sha1Hex, decode)
        == Ok(Some((choices, Age(now, savedAt))))
  {
    ChoicesRoundTrip(choices);
  }

  /**
   * A record one minute past the TTL is still served by the any-age loader
   * but refused by the fresh one; one exactly at the TTL is still fresh.
   */
  lemma {:induction false} StaleRecordOnlyWithAge(files: Files, xdgCacheHome: Option<string>, home: Option<string>,
                               startUrl: string, now: nat, sha1Hex: string -> string,
                               decode: string -> Option<CachedRoles>)
    requires CachePath(xdgCacheHome, home, startUrl, sha1Hex).Ok?
    requires
      var path := CachePath(xdgCacheHome, home, startUrl, sha1Hex).value;
      ReadToString(files, path).Some? && decode(ReadToString(files, path).value).Some?
    ensures
      var path := CachePath(xdgCacheHome, home, startUrl, sha1Hex).value;
      var fetchedAt := decode(ReadToString(files, path).value).value.fetchedAt;
      && LoadCachedRolesWithAge(files, xdgCacheHome, home, startUrl, now, sha1Hex, decode).value.Some?
      && (now == fetchedAt + RolesCacheTtl + 60 ==>
            LoadCachedRoles(files, xdgCacheHome, home, startUrl, now, sha1Hex, decode) == Ok(None))
      && (now == fetchedAt + RolesCacheTtl ==>
            LoadCachedRoles(files, xdgCacheHome, home, startUrl, now, sha1Hex, decode).value.Some?)
  {
  }

  // ---------------------------------------------------------------------------
  // format_age

  /** `format_age`: "Hh Mm" from one hour on, else "Mm Ss" from one minute on, else "Ss". */
  function FormatAge(total: nat): string
  {
    var hours := total / 3600;
    var minutes := (total % 3600) / 60;
    var seconds := total % 60;
    if hours > 0 then NatToString(hours) + "h " + NatToString(minutes) + "m"
    else if minutes > 0 then NatToString(minutes) + "m " + NatToString(seconds) + "s"
    else NatToString(seconds) + "s"
  }

  /** The unit letters of a rendered age. */
  predicate IsAgeUnit(c: char)
  {
    c == 'h' || c == 'm' || c == 's'
  }

  /** The seconds `n` of one unit letter of a rendered age stand for. */
  function Scaled(n: nat, unit: char): nat
  {
    if unit == 'h' then n * 3600 else if unit == 'm' then n * 60 else n
  }

  /** The seconds one `<digits><unit>` part of a rendered age stands for. */
  function ReadAgePart(p: string): Option<nat>
  {
    if |p| >= 1 && AllDigits(p[..|p| - 1]) && IsAgeUnit(p[|p| - 1]) then
      Some(Scaled(DigitsValue(p[..|p| - 1]), p[|p| - 1]))
    else None
  }

  /** Reads a rendered age back as seconds: one part, or two separated by a space. */
  function ReadAge(s: string): Option<nat>
  {
    match FindChar(s, ' ')
    case None => ReadAgePart(s)
    case Some(i) => AddParts(ReadAgePart(s[..i]), ReadAgePart(s[i + 1..]))
  }

  function AddParts(a: Option<nat>, b: Option<nat>): Option<nat>
  {
    if a.Some? && b.Some? then Some(a.value + b.value) else None
  }

  predicate AllDigits(d: string)
  {
    forall i :: 0 <= i < |d| ==> IsDigit(d[i])
  }

  lemma {:induction false} ReadAgePartOf(d: string, unit: char)
    requires AllDigits(d) && IsAgeUnit(unit)
    ensures ReadAgePart(d + [unit]) == Some(Scaled(DigitsValue(d), unit))
  {
    var p := d + [unit];
    assert p[..|p| - 1] == d;
  }

  lemma {:induction false} ReadAgeTwoParts(first: string, second: string, x: nat, y: nat)
    requires ' ' !in first && ReadAgePart(first) == Some(x) && ReadAgePart(second) == Some(y)
    ensures ReadAge(first + [' '] + second) == Some(x + y)
  {
    FindCharAt(first, ' ', second);
    var s := first + [' '] + second;
    assert s[..|first|] == first;
    assert s[|first| + 1..] == second;
  }

  /** A rendered part has no space in it. */
  lemma {:induction false} NoSpaceInPart(d: string, unit: char)
    requires AllDigits(d) && IsAgeUnit(unit)
    ensures ' ' !in d + [unit]
  {
    var p := d + [unit];
    forall i | 0 <= i < |p| ensures p[i] != ' ' {
      if i < |d| {
        assert p[i] == d[i] && IsDigit(d[i]);
      }
    }
  }

  /** The hours, minutes and seconds `format_age` shows add back up to the age. */
  lemma {:induction false} AgeParts(total: nat)
    ensures (total / 3600) * 3600 + ((total % 3600) / 60) * 60 + total % 60 == total
    ensures (total / 3600) * 3600 + ((total % 3600) / 60) * 60 == total - total % 60
    ensures total / 3600 == 0 ==> total % 3600 == total
  {
    var q := total / 3600;
    var r := total % 3600;
    var m := r / 60;
    var s := r % 60;
    assert total == q * 3600 + r;
    assert r == m * 60 + s;
    assert total == (q * 60 + m) * 60 + s;
    assert total % 60 == s;
  }

  /**
   * The rendering is exact below one hour and drops only the seconds from
   * one hour on: reading it back gives the age, truncated to whole minutes
   * when hours are shown.
   */
  lemma {:induction false} FormatAgeReadsBack(total: nat)
    ensures ReadAge(FormatAge(total)) == Some(if total >= 3600 then total - total % 60 else total)
  {
    if total >= 3600 {
      ReadBackHours(total);
    } else if total >= 60 {
      ReadBackMinutes(total);
    } else {
      var sec := NatToString(total);
      assert FormatAge(total) == sec + ['s'];
      RenderedDigits(total);
      assert ' ' !in sec + ['s'];
      ReadAgePartOf(sec, 's');
    }
  }

  lemma {:induction false} ReadBackHours(total: nat)
    requires total >= 3600
    ensures ReadAge(FormatAge(total)) == Some(total - total % 60)
  {
    var hours := total / 3600;
    var minutes := (total % 3600) / 60;
    AgeParts(total);
    var h := NatToString(hours);
    var m := NatToString(minutes);
    FormatAgeHoursShape(total);
    RenderedDigits(hours);
    RenderedDigits(minutes);
    ReadAgePartOf(h, 'h');
    ReadAgePartOf(m, 'm');
    NoSpaceInPart(h, 'h');
    ReadAgeTwoParts(h + ['h'], m + ['m'], hours * 3600, minutes * 60);
  }

  lemma {:induction false} ReadBackMinutes(total: nat)
    requires 60 <= total < 3600
    ensures ReadAge(FormatAge(total)) == Some(total)
  {
    var minutes := total / 60;
    var seconds := total % 60;
    AgeParts(total);
    var m := NatToString(minutes);
    var sec := NatToString(seconds);
    FormatAgeMinutesShape(total);
    RenderedDigits(minutes);
    RenderedDigits(seconds);
    ReadAgePartOf(m, 'm');
    ReadAgePartOf(sec, 's');
    NoSpaceInPart(m, 'm');
    ReadAgeTwoParts(m + ['m'], sec + ['s'], minutes * 60, seconds);
  }

  lemma {:induction false} FormatAgeHoursShape(total: nat)
    requires total >= 3600
    ensures FormatAge(total) == NatToString(total / 3600) + ['h'] + [' '] + (NatToString((total % 3600) / 60) + ['m'])
  {
  }

  lemma {:induction false} FormatAgeMinutesShape(total: nat)
    requires 60 <= total < 3600
    ensures FormatAge(total) == NatToString(total / 60) + ['m'] + [' '] + (NatToString(total % 60) + ['s'])
  {
    assert total / 3600 == 0 && total % 3600 == total;
  }

  /** A rendered count is all digits and reads back as itself. */
  lemma {:induction false} RenderedDigits(n: nat)
    ensures AllDigits(NatToString(n)) && DigitsValue(NatToString(n)) == n
  {
    NatToStringRoundTrip(n);
  }

  lemma {:induction false} FormatAgeExamples()
    ensures FormatAge(5) == "5s"
    ensures FormatAge(70) == "1m 10s"
    ensures FormatAge(3650) == "1h 0m"
  {
    assert NatToString(10) == "10";
  }
}
