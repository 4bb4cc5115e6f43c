/**
 * The role-credentials cache (src/credentials_cache.rs): one JSON file
 * `creds-<sha1 hex>.json` per (start URL, region, account, role) in the
 * roleman cache directory, served only while it has more than a minute
 * left before it expires.
 *
 * Times are Unix milliseconds supplied by the caller; SHA-1 and the JSON
 * encoding are supplied functions.
 */
module CredentialsCache {
  import opened Wrappers
  import opened Errors
  import opened Strings
  import opened Paths
  import opened FileStore
  import opened Model
  import opened RolesCache

  /** `EXPIRY_SAFETY_SECS`: credentials this close to expiring are not reused. */
  const ExpirySafetySecs: nat := 60

  /** The file's record. */
  datatype CachedCredentials = CachedCredentials(
    accessKeyId: string, secretAccessKey: string, sessionToken: string, expirationMs: nat)

  /** The key of a cache file: the four identifying strings. */
  datatype Key = Key(startUrl: string, region: string, accountId: string, roleName: string)

  /** The bytes fed to the hasher: the four strings back to back, with no separator. */
  function HashedText(k: Key): string
  {
    k.startUrl + k.region + k.accountId + k.roleName
  }

  /** `cache_filename`: "creds-" + the hex SHA-1 of the concatenated key + ".json". */
  function CredsFilename(k: Key, sha1Hex: string -> string): (r: string)
    ensures StartsWith(r, "creds-") && EndsWith(r, ".json")
    ensures |r| == |sha1Hex(HashedText(k))| + 11
    ensures r[6..|r| - 5] == sha1Hex(HashedText(k))
  {
    "creds-" + sha1Hex(HashedText(k)) + ".json"
  }

  /**
   * Keys whose concatenations agree share one file, whatever the digest:
   * moving text from one field to its neighbour does not change the file.
   */
  lemma {:induction false} SameConcatenationSameFile(a: Key, b: Key, sha1Hex: string -> string)
    requires HashedText(a) == HashedText(b)
    ensures CredsFilename(a, sha1Hex) == CredsFilename(b, sha1Hex)
  {
  }

  /** The collision in a concrete case: a region shifted into the start URL. */
  lemma {:induction false} ShiftedKeysCollide(sha1Hex: string -> string)
    ensures CredsFilename(Key("https://x/start", "us-east-1", "1234", "Admin"), sha1Hex)
         == CredsFilename(Key("https://x/startus-east-1", "", "1234", "Admin"), sha1Hex)
  {
    var a := Key("https://x/start", "us-east-1", "1234", "Admin");
    var b := Key("https://x/startus-east-1", "", "1234", "Admin");
    assert HashedText(a) == HashedText(b);
    SameConcatenationSameFile(a, b, sha1Hex);
  }

  /** `cache_path`: the key's file in the roleman cache directory. */
  function CredsPath(xdgCacheHome: Option<string>, home: Option<string>, k: Key, sha1Hex: string -> string)
    : (r: Result<string>)
    ensures r.Err? <==> xdgCacheHome.None? && home.None?
    ensures r.Err? ==> r.error == MissingHome
    ensures r.Ok? ==> EndsWith(r.value, CredsFilename(k, sha1Hex))
  {
    assert CredsFilename(k, sha1Hex)[0] == 'c';
    match RolemanCacheDir(xdgCacheHome, home)
    case Err(e) => Err(e)
    case Ok(dir) => Ok(JoinPath(dir, CredsFilename(k, sha1Hex)))
  }

  /**
   * `is_expired`: true once the current time plus the one-minute margin has
   * reached the expiry.
   */
  function IsExpired(expirationMs: nat, nowMs: nat): (r: bool)
    ensures r <==> expirationMs <= nowMs + ExpirySafetySecs * 1000
  {
    nowMs + ExpirySafetySecs * 1000 >= expirationMs
  }

  /** 59 seconds left is a miss, 61 seconds left is a hit, and exactly 60 is a miss. */
  lemma {:induction false} ExpiryMargin(nowMs: nat)
    ensures IsExpired(nowMs + 59000, nowMs)
    ensures IsExpired(nowMs + 60000, nowMs)
    ensures !IsExpired(nowMs + 61000, nowMs)
  {
  }

  function ToCredentials(c: CachedCredentials): AwsRoleCredentials
  {
    AwsRoleCredentials(c.accessKeyId, c.secretAccessKey, c.sessionToken, c.expirationMs)
  }

  function ToCached(creds: AwsRoleCredentials): CachedCredentials
  {
    CachedCredentials(creds.accessKeyId, creds.secretAccessKey, creds.sessionToken, creds.expiration)
  }

  /**
   * `load_cached_credentials`: the stored credentials of the key, when the
   * file exists, reads, decodes and is not (nearly) expired; `Ok(None)` in
   * every other case but an unknown cache directory.
   */
  function LoadCachedCredentials(files: Files, xdgCacheHome: Option<string>, home: Option<string>, k: Key,
                                 nowMs: nat, sha1Hex: string -> string,
                                 decode: string -> Option<CachedCredentials>)
    : (r: Result<Option<AwsRoleCredentials>>)
    ensures r.Err? <==> xdgCacheHome.None? && home.None?
    ensures r.Err? ==> r.error == MissingHome
    ensures r.Ok? ==>
      var path := CredsPath(xdgCacheHome, home, k, sha1Hex).value;
      var data := ReadToString(files, path);
      && (r.value.Some? <==> data.Some? && decode(data.value).Some?
                              && !IsExpired(decode(data.value).value.expirationMs, nowMs))
      && (r.value.Some? ==>
            var c := decode(data.value).value;
            && r.value.value.accessKeyId == c.accessKeyId
            && r.value.value.secretAccessKey == c.secretAccessKey
            && r.value.value.sessionToken == c.sessionToken
            && r.value.value.expiration == c.expirationMs)
  {
    match CredsPath(xdgCacheHome, home, k, sha1Hex)
    case Err(e) => Err(e)
    case Ok(path) =>
      match ReadToString(files, path)
      case None => Ok(None)
      case Some(data) =>
        match decode(data)
        case None => Ok(None)
        case Some(cached) =>
          if IsExpired(cached.expirationMs, nowMs) then Ok(None) else Ok(Some(ToCredentials(cached)))
  }

  /**
   * `save_cached_credentials`: creates the cache directory (`dirCreated`),
   * encodes the credentials and overwrites the key's one file, whatever it
   * held before (`writeSucceeds` is the write's outcome). A failed mkdir is
   * `MissingCache`; a failed encoding or write is `CacheParse` naming the file.
   */
  method SaveCachedCredentials(disk: Disk, xdgCacheHome: Option<string>, home: Option<string>, k: Key,
                               creds: AwsRoleCredentials, sha1Hex: string -> string,
                               encode: CachedCredentials -> Option<string>, dirCreated: bool, writeSucceeds: bool)
    returns (r: Result<()>)
    modifies disk
    ensures xdgCacheHome.None? && home.None? ==> r == Err(MissingHome) && disk.files == old(disk.files)
    ensures CredsPath(xdgCacheHome, home, k, sha1Hex).Ok? ==>
      var path := CredsPath(xdgCacheHome, home, k, sha1Hex).value;
      var data := encode(ToCached(creds));
      && (!dirCreated ==> r == Err(MissingCache) && disk.files == old(disk.files))
      && (dirCreated && (data.None? || !writeSucceeds) ==> r == Err(CacheParse(path)) && disk.files == old(disk.files))
      && (dirCreated && data.Some? && writeSucceeds ==> r == Ok(()) && disk.files == old(disk.files)[path := data])
  {
    var path := CredsPath(xdgCacheHome, home, k, sha1Hex);
    if path.Err? {
      return Err(path.error);
    }
    if !dirCreated {
      return Err(MissingCache);
    }
    var cached := ToCached(creds);
    var data := encode(cached);
    if data.None? {
      return Err(CacheParse(path.value));
    }
    var ok := disk.Write(path.value, data.value, writeSucceeds);
    if !ok {
      return Err(CacheParse(path.value));
    }
    r := Ok(());
  }

  /**
   * Saved credentials load back exactly, field for field, while more than
   * the margin is left; from then on the same file loads as `None`.
   */
  lemma {:induction false} SaveLoadRoundTrip(files: Files, xdgCacheHome: Option<string>, home: Option<string>, k: Key,
                          creds: AwsRoleCredentials, nowMs: nat, sha1Hex: string -> string,
                          encode: CachedCredentials -> Option<string>, decode: string -> Option<CachedCredentials>)
    requires CredsPath(xdgCacheHome, home, k, sha1Hex).Ok?
    requires encode(ToCached(creds)).Some? && decode(encode(ToCached(creds)).value) == Some(ToCached(creds))
    ensures
      var saved := files[CredsPath(xdgCacheHome, home, k, sha1Hex).value := encode(ToCached(creds))];
      var loaded := LoadCachedCredentials(saved, xdgCacheHome, home, k, nowMs, sha1Hex, decode);
      && (creds.expiration > nowMs + ExpirySafetySecs * 1000 ==> loaded == Ok(Some(creds)))
      && (creds.expiration <= nowMs + ExpirySafetySecs * 1000 ==> loaded == Ok(None))
  {
  }

  /** Credentials that expired two minutes ago load as `None`. */
  lemma {:induction false} ExpiredEntryIsMiss(files: Files, xdgCacheHome: Option<string>, home: Option<string>, k: Key,
                           creds: AwsRoleCredentials, nowMs: nat, sha1Hex: string -> string,
                           encode: CachedCredentials -> Option<string>, decode: string -> Option<CachedCredentials>)
    requires CredsPath(xdgCacheHome, home, k, sha1Hex).Ok?
    requires encode(ToCached(creds)).Some? && decode(encode(ToCached(creds)).value) == Some(ToCached(creds))
    requires creds.expiration + 120000 == nowMs
    ensures
      var saved := files[CredsPath(xdgCacheHome, home, k, sha1Hex).value := encode(ToCached(creds))];
      LoadCachedCredentials(saved, xdgCacheHome, home, k, nowMs, sha1Hex, decode) == Ok(None)
  {
    SaveLoadRoundTrip(files, xdgCacheHome, home, k, creds, nowMs, sha1Hex, encode, decode);
  }
}
