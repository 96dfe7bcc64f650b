/** The local file system as the extractors see it: the set of paths that exist. */
module Files {

  class FileSystem {
    var existing: set<string>

    /** `os.path.exists("")` is false: the empty path never names a file. */
    ghost predicate Valid()
      reads this
    {
      "" !in existing
    }

    constructor (initial: set<string>)
      requires "" !in initial
      ensures Valid() && existing == initial
    {
      existing := initial;
    }

    /** `os.path.exists(path)`. */
    method Exists(path: string) returns (b: bool)
      requires Valid()
      ensures b <==> path in existing
      ensures path == "" ==> !b
    {
      b := path in existing;
    }

    /** `os.remove(path)`, on a path that exists. */
    method Remove(path: string)
      requires Valid() && path in existing
      modifies this
      ensures Valid() && existing == old(existing) - {path}
    {
      existing := existing - {path};
    }

    /** A file written at `path`, created or overwritten. */
    method Write(path: string)
      requires Valid() && path != ""
      modifies this
      ensures Valid() && existing == old(existing) + {path}
    {
      existing := existing + {path};
    }
  }
}
