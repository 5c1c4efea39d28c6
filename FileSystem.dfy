/** The part of the operating system the search core looks at: directory
    listings as `os.walk` produces them, and for regular files what
    `os.path.isfile`, `os.path.getsize`, `os.path.getmtime` and reading the
    file report. The file system is a value passed to each operation, so a
    scan and a later search may see different states. */
module FileSystem {
  import opened Wrappers

  /** A regular file: its size in bytes, its modification time in whole
      seconds, and its text, or `None` when opening it fails. */
  datatype FileInfo = FileInfo(size: nat, mtime: int, content: Option<string>)

  /** A directory as one `os.walk` step lists it: the names of the
      non-directory entries, then the subdirectories, in listing order. */
  datatype Tree = Tree(files: seq<string>, subdirs: seq<Subdir>)

  datatype Subdir = Subdir(name: string, tree: Tree)

  /** `files` holds every path for which `os.path.isfile` is true; `dirs` maps
      the path of a directory to the tree below it. */
  datatype FileSystem = FileSystem(files: map<string, FileInfo>, dirs: map<string, Tree>)

  /** One element of the file list: a base name and the path it was found at. */
  datatype Entry = Entry(name: string, path: string)

  predicate IsFile(fs: FileSystem, path: string) {
    path in fs.files
  }

  predicate IsDir(fs: FileSystem, path: string) {
    path in fs.dirs
  }

  /** `os.path.exists`. */
  predicate Exists(fs: FileSystem, path: string) {
    IsFile(fs, path) || IsDir(fs, path)
  }

  predicate StartsWith(s: string, prefix: string) {
    |prefix| <= |s| && s[..|prefix|] == prefix
  }

  /** `os.path.join(a, b)` on POSIX: an absolute `b` replaces `a`; otherwise a
      separator is inserted unless `a` is empty or already ends with one. */
  function Join(a: string, b: string): (r: string)
    ensures |r| >= |b| && r[|r| - |b|..] == b
    ensures (|b| > 0 && b[0] == '/') || StartsWith(r, a)
    ensures |b| > 0 && b[0] == '/' ==> r == b
  {
    if |b| > 0 && b[0] == '/' then b
    else if a == [] || a[|a| - 1] == '/' then a + b
    else a + "/" + b
  }
}
