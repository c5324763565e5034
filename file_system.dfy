/** The part of the file system the managers look at: which paths are files (with their
    text), which are directories. `os.path.exists`, `isfile` and `isdir` are membership
    tests; writing a file updates the map in place. */
module FileSystems {

  class FileSystem {
    var files: map<string, string>
    var dirs: set<string>

    /** A path is a file or a directory, never both, and the empty path is neither. */
    ghost predicate Valid()
      reads this
    {
      files.Keys !! dirs && "" !in files && "" !in dirs
    }

    /** `os.path.exists(p)` */
    predicate Exists(p: string)
      reads this
    {
      p in files || p in dirs
    }

    /** `os.path.isfile(p)` */
    predicate IsFile(p: string)
      reads this
    {
      p in files
    }

    /** `os.path.isdir(p)` */
    predicate IsDir(p: string)
      reads this
    {
      p in dirs
    }
  }
}
