/**
 * The desktop permissions cache (src/desktop/permissions.rs): one JSON file
 * `desktop-permissions.json` in roleman's cache directory remembering
 * whether macOS let the program close the sign-in browser tab.
 *
 * The JSON encoding is a supplied pair of functions; whether the cache
 * directory can be created and whether the write succeeds are outcomes the
 * environment gives.
 */
module Permissions {
  import opened Wrappers
  import opened Errors
  import opened Paths
  import opened FileStore
  import opened RolesCache
  import opened Strings

  /** `PERMISSIONS_CACHE_FILE`. */
  const PermissionsCacheFile: string := "desktop-permissions.json"

  /** `DesktopPermissions`: the one remembered flag. */
  datatype DesktopPermissions = DesktopPermissions(macosCloseAuthTabAuthorized: bool)

  /** `DesktopPermissions::default()`: not authorised. */
  const DefaultPermissions: DesktopPermissions := DesktopPermissions(false)

  /** `permissions_cache_path`: the file in the cache directory, or that directory's error. */
  function PermissionsCachePath(xdgCacheHome: Option<string>, home: Option<string>): (r: Result<string>)
    ensures r.Err? <==> RolemanCacheDir(xdgCacheHome, home).Err?
    ensures r.Err? ==> r.error == MissingHome
    ensures r.Ok? ==> EndsWith(r.value, PermissionsCacheFile)
  {
    match RolemanCacheDir(xdgCacheHome, home)
    case Err(e) => Err(e)
    case Ok(dir) =>
      assert PermissionsCacheFile[0] != '/';
      Ok(JoinPath(dir, PermissionsCacheFile))
  }

  /**
   * `load_permissions`: the default when the file does not exist, a
   * `Config` error when it cannot be read or does not parse, else the
   * parsed record.
   */
  function LoadPermissions(files: Files, xdgCacheHome: Option<string>, home: Option<string>,
                           decode: string -> Option<DesktopPermissions>): (r: Result<DesktopPermissions>)
  {
    match PermissionsCachePath(xdgCacheHome, home)
    case Err(e) => Err(e)
    case Ok(path) =>
      if path !in files then Ok(DefaultPermissions)
      else match files[path]
        case None => Err(Config("failed to read desktop permissions cache"))
        case Some(data) =>
          match decode(data)
          case None => Err(Config("failed to parse desktop permissions cache"))
          case Some(p) => Ok(p)
  }

  /** `macos_close_auth_tab_authorized`: the loaded flag, and false whenever the load fails. */
  predicate IsAuthorized(files: Files, xdgCacheHome: Option<string>, home: Option<string>,
                         decode: string -> Option<DesktopPermissions>)
  {
    match LoadPermissions(files, xdgCacheHome, home, decode)
    case Ok(p) => p.macosCloseAuthTabAuthorized
    case Err(_) => false
  }

  /**
   * The load's outcome in each case of the file: a missing file is the
   * default, an unreadable or unparsable one a `Config` error, a parsable
   * one its record.
   */
  lemma {:induction false} LoadPermissionsCases(files: Files, xdgCacheHome: Option<string>, home: Option<string>,
                                                decode: string -> Option<DesktopPermissions>)
    requires PermissionsCachePath(xdgCacheHome, home).Ok?
    ensures var path := PermissionsCachePath(xdgCacheHome, home).value;
      var r := LoadPermissions(files, xdgCacheHome, home, decode);
      && (path !in files ==> r == Ok(DefaultPermissions))
      && (path in files && files[path].None? ==> r.Err? && r.error.Config?)
      && (path in files && files[path].Some? && decode(files[path].value).None? ==> r.Err? && r.error.Config?)
      && (path in files && files[path].Some? && decode(files[path].value).Some? ==>
            r == Ok(decode(files[path].value).value))
  {
  }

  /** Without a cache directory the load fails with `MissingHome` and the flag reads as false. */
  lemma {:induction false} NoHomeNotAuthorized(files: Files, decode: string -> Option<DesktopPermissions>)
    ensures LoadPermissions(files, None, None, decode) == Err(MissingHome)
    ensures !IsAuthorized(files, None, None, decode)
  {
  }

  /** No file, an unreadable file and a file that does not parse all read as not authorised. */
  lemma {:induction false} MissingOrInvalidNotAuthorized(files: Files, xdgCacheHome: Option<string>,
                                                         home: Option<string>,
                                                         decode: string -> Option<DesktopPermissions>)
    requires PermissionsCachePath(xdgCacheHome, home).Ok?
    requires var path := PermissionsCachePath(xdgCacheHome, home).value;
      path !in files || files[path].None? || decode(files[path].value).None?
    ensures !IsAuthorized(files, xdgCacheHome, home, decode)
  {
    LoadPermissionsCases(files, xdgCacheHome, home, decode);
  }

  /**
   * What `save_permissions` leaves on disk: the encoded record at the
   * cache path when the directory exists, the record encodes and the write
   * succeeds; the old files otherwise.
   */
  function FilesAfterSave(files: Files, xdgCacheHome: Option<string>, home: Option<string>, p: DesktopPermissions,
                          encode: DesktopPermissions -> Option<string>, dirCreated: bool, writeSucceeds: bool): Files
  {
    var path := PermissionsCachePath(xdgCacheHome, home);
    if path.Ok? && dirCreated && encode(p).Some? && writeSucceeds then files[path.value := encode(p)]
    else files
  }

  /**
   * `set_macos_close_auth_tab_authorized`: the loaded record (the default
   * when the load fails) with the flag replaced, saved back. It returns
   * nothing; a failed save leaves the disk as it was.
   */
  function RecordToSet(files: Files, xdgCacheHome: Option<string>, home: Option<string>,
                       decode: string -> Option<DesktopPermissions>, authorized: bool): (p: DesktopPermissions)
    ensures p == DesktopPermissions(authorized)
  {
    var loaded := LoadPermissions(files, xdgCacheHome, home, decode);
    var base := if loaded.Ok? then loaded.value else DefaultPermissions;
    base.(macosCloseAuthTabAuthorized := authorized)
  }

  /**
   * Reading back a saved record gives that record, when the decoder reads
   * back what the encoder wrote.
   */
  lemma {:induction false} SaveLoadRoundTrip(files: Files, xdgCacheHome: Option<string>, home: Option<string>,
                                             p: DesktopPermissions, encode: DesktopPermissions -> Option<string>,
                                             decode: string -> Option<DesktopPermissions>)
    requires PermissionsCachePath(xdgCacheHome, home).Ok?
    requires encode(p).Some? && decode(encode(p).value) == Some(p)
    ensures LoadPermissions(FilesAfterSave(files, xdgCacheHome, home, p, encode, true, true), xdgCacheHome, home, decode)
            == Ok(p)
  {
    var path := PermissionsCachePath(xdgCacheHome, home).value;
    var saved := files[path := encode(p)];
    assert path in saved && saved[path] == encode(p);
  }

  /**
   * After a successful set the flag reads as what was set, whatever the file
   * held before (missing, unreadable, invalid or valid).
   */
  lemma {:induction false} SetThenRead(files: Files, xdgCacheHome: Option<string>, home: Option<string>, authorized: bool,
                                       encode: DesktopPermissions -> Option<string>,
                                       decode: string -> Option<DesktopPermissions>)
    requires PermissionsCachePath(xdgCacheHome, home).Ok?
    requires encode(DesktopPermissions(authorized)).Some?
    requires decode(encode(DesktopPermissions(authorized)).value) == Some(DesktopPermissions(authorized))
    ensures var p := RecordToSet(files, xdgCacheHome, home, decode, authorized);
      IsAuthorized(FilesAfterSave(files, xdgCacheHome, home, p, encode, true, true), xdgCacheHome, home, decode)
        == authorized
  {
    SaveLoadRoundTrip(files, xdgCacheHome, home, DesktopPermissions(authorized), encode, decode);
  }

  /**
   * The sequence of the source's round-trip test: with no file the flag is
   * false; after setting true it is true; after setting false it is false
   * again.
   */
  lemma {:induction false} SetTrueThenFalse(files: Files, xdgCacheHome: Option<string>, home: Option<string>,
                                            encode: DesktopPermissions -> Option<string>,
                                            decode: string -> Option<DesktopPermissions>)
    requires PermissionsCachePath(xdgCacheHome, home).Ok?
    requires PermissionsCachePath(xdgCacheHome, home).value !in files
    requires forall b: bool :: encode(DesktopPermissions(b)).Some?
               && decode(encode(DesktopPermissions(b)).value) == Some(DesktopPermissions(b))
    ensures !IsAuthorized(files, xdgCacheHome, home, decode)
    ensures var afterTrue := FilesAfterSave(files, xdgCacheHome, home, RecordToSet(files, xdgCacheHome, home, decode, true),
                                            encode, true, true);
      && IsAuthorized(afterTrue, xdgCacheHome, home, decode)
      && !IsAuthorized(FilesAfterSave(afterTrue, xdgCacheHome, home, RecordToSet(afterTrue, xdgCacheHome, home, decode, false),
                                      encode, true, true), xdgCacheHome, home, decode)
  {
    MissingOrInvalidNotAuthorized(files, xdgCacheHome, home, decode);
    assert encode(DesktopPermissions(true)).Some?;
    SetThenRead(files, xdgCacheHome, home, true, encode, decode);
    var afterTrue := FilesAfterSave(files, xdgCacheHome, home, RecordToSet(files, xdgCacheHome, home, decode, true),
                                    encode, true, true);
    assert encode(DesktopPermissions(false)).Some?;
    SetThenRead(afterTrue, xdgCacheHome, home, false, encode, decode);
  }

  /**
   * `save_permissions`: the path's error, then a `Config` error for a
   * directory that cannot be created, a record that does not encode or a
   * failed write; otherwise the file is replaced.
   */
  method SavePermissions(disk: Disk, xdgCacheHome: Option<string>, home: Option<string>, p: DesktopPermissions,
                         encode: DesktopPermissions -> Option<string>, dirCreated: bool, writeSucceeds: bool)
    returns (r: Result<()>)
    modifies disk
    ensures disk.files == FilesAfterSave(old(disk.files), xdgCacheHome, home, p, encode, dirCreated, writeSucceeds)
    ensures r.Ok? <==> PermissionsCachePath(xdgCacheHome, home).Ok? && dirCreated && encode(p).Some? && writeSucceeds
    ensures PermissionsCachePath(xdgCacheHome, home).Err? ==> r == Err(MissingHome)
    ensures PermissionsCachePath(xdgCacheHome, home).Ok? && r.Err? ==> r.error.Config?
  {
    var path := PermissionsCachePath(xdgCacheHome, home);
    if path.Err? {
      return Err(path.error);
    }
    r := SaveAt(disk, path.value, p, encode, dirCreated, writeSucceeds);
  }

  /** The steps of `save_permissions` once the cache path is known. */
  method SaveAt(disk: Disk, path: string, p: DesktopPermissions,
                encode: DesktopPermissions -> Option<string>, dirCreated: bool, writeSucceeds: bool)
    returns (r: Result<()>)
    modifies disk
    ensures r.Ok? <==> dirCreated && encode(p).Some? && writeSucceeds
    ensures r.Ok? ==> disk.files == old(disk.files)[path := encode(p)]
    ensures r.Err? ==> disk.files == old(disk.files) && r.error.Config?
  {
    if !dirCreated {
      return Err(Config("failed to create desktop permissions cache directory"));
    }
    var data := encode(p);
    if data.None? {
      return Err(Config("failed to serialize desktop permissions cache"));
    }
    var ok := disk.Write(path, data.value, writeSucceeds);
    if !ok {
      return Err(Config("failed to write desktop permissions cache"));
    }
    r := Ok(());
  }

  /** `set_macos_close_auth_tab_authorized`: load (or default), replace the flag, save; errors are dropped. */
  method SetAuthorized(disk: Disk, xdgCacheHome: Option<string>, home: Option<string>, authorized: bool,
                       encode: DesktopPermissions -> Option<string>, decode: string -> Option<DesktopPermissions>,
                       dirCreated: bool, writeSucceeds: bool)
    modifies disk
    ensures disk.files == FilesAfterSave(old(disk.files), xdgCacheHome, home,
                                         RecordToSet(old(disk.files), xdgCacheHome, home, decode, authorized),
                                         encode, dirCreated, writeSucceeds)
  {
    var loaded := LoadPermissions(disk.files, xdgCacheHome, home, decode);
    var permissions := if loaded.Ok? then loaded.value else DefaultPermissions;
    permissions := permissions.(macosCloseAuthTabAuthorized := authorized);
    var _ := SavePermissions(disk, xdgCacheHome, home, permissions, encode, dirCreated, writeSucceeds);
  }
}
