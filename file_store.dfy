/**
 * The slice of the file system the caches use: whole files addressed by
 * path. A path absent from the map does not exist; a path mapped to `None`
 * exists but cannot be read as text.
 */
module FileStore {
  import opened Wrappers

  type Files = map<string, Option<string>>

  /** `fs::read_to_string`: the contents, when the file exists and reads. */
  function ReadToString(files: Files, path: string): (r: Option<string>)
    ensures r.Some? <==> path in files && files[path].Some?
    ensures r.Some? ==> r.value == files[path].value
  {
    if path in files then files[path] else None
  }

  /** A disk whose files the program rewrites in place. */
  class Disk {
    var files: Files

    constructor(initial: Files)
      ensures files == initial
    {
      files := initial;
    }

    /**
     * `fs::write`: replaces the whole file when the write succeeds
     * (`succeeds` is the outcome the environment gives) and leaves the disk
     * as it was otherwise.
     */
    method Write(path: string, data: string, succeeds: bool) returns (ok: bool)
      modifies this
      ensures ok == succeeds
      ensures ok ==> files == old(files)[path := Some(data)]
      ensures !ok ==> files == old(files)
    {
      ok := succeeds;
      if succeeds {
        files := files[path := Some(data)];
      }
    }
  }
}
