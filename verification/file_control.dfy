/**
 * The file-control collaborators the adapter writes through, reduced to what the
 * adapter can observe: a file system is a map from path to contents, a directory
 * handle is the path the library reports for it together with the answer of its
 * writability check.
 */
module FileControl {

  type FileSystem = map<string, string>

  /** A handle on a directory: the path it reports and whether it was found writable. */
  datatype Directory = Directory(path: string, writable: bool)

  /**
   * Opens a handle on `path`. The library's path reporting (`getPath`) and its
   * writability check (`writable`) are oracles.
   */
  function OpenDirectory(path: string, getPath: string -> string, writable: string -> bool): Directory
  {
    Directory(getPath(path), writable(path))
  }

  /** The contents of the file at `path`, reading a missing file as empty. */
  function Contents(fs: FileSystem, path: string): string
  {
    if path in fs then fs[path] else ""
  }

  predicate Exists(fs: FileSystem, path: string)
  {
    path in fs
  }

  /** `fs'` agrees with `fs` on every path except `path`, including which paths exist. */
  ghost predicate SameElsewhere(fs: FileSystem, fs': FileSystem, path: string)
  {
    && (forall q :: q != path ==> (q in fs <==> q in fs'))
    && (forall q :: q in fs && q != path ==> q in fs' && fs'[q] == fs[q])
  }

  /** Creates an empty file at `path`. */
  function Create(fs: FileSystem, path: string): (fs': FileSystem)
    ensures Exists(fs', path) && Contents(fs', path) == ""
    ensures fs'.Keys == fs.Keys + {path}
    ensures SameElsewhere(fs, fs', path)
  {
    fs[path := ""]
  }

  /** Appends `text` to the existing file at `path`. */
  function Append(fs: FileSystem, path: string, text: string): (fs': FileSystem)
    requires Exists(fs, path)
    ensures Exists(fs', path) && Contents(fs', path) == Contents(fs, path) + text
    ensures fs'.Keys == fs.Keys
    ensures SameElsewhere(fs, fs', path)
  {
    fs[path := fs[path] + text]
  }
}
