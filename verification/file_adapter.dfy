/**
 * The rotating file log writer. Its configuration is an immutable record; every
 * setter returns the updated record, and `Write` returns the updated file system.
 *
 * PHP's `date($mode)` is not interpreted: callers pass the formatting function
 * `format(pattern, now)` and the current instant `now`.
 */
module FileAdapter {
  import opened Wrappers
  import opened FileControl

  /** The date patterns of the five rotation modes. */
  const HOUR: string := "Y-m-d H"
  const DAY: string := "Y-m-d"
  const WEEK: string := "Y-W"
  const MONTH: string := "Y-m"
  const YEAR: string := "Y"

  datatype Config = Config(
    directory: Option<Directory>,
    suffix: Option<string>,
    extension: string,
    mode: string)

  datatype Error =
    | DirectoryNotWritable(path: string)  // raised by SetDirectory
    | DirectoryNotSet                     // raised by Write

  datatype Outcome = Pass | Fail(error: Error)

  /** The configuration invariant: the extension is non-empty and starts with a dot. */
  predicate Valid(c: Config)
  {
    |c.extension| > 0 && c.extension[0] == '.'
  }

  function GetDirectory(c: Config): Option<Directory> { c.directory }
  function GetSuffix(c: Config): Option<string> { c.suffix }
  function GetExtension(c: Config): string { c.extension }
  function GetMode(c: Config): string { c.mode }

  /** A freshly constructed adapter. */
  function NewAdapter(): (c: Config)
    ensures Valid(c)
    ensures GetDirectory(c).None? && GetSuffix(c).None?
    ensures GetExtension(c) == ".log"
    ensures GetMode(c) == DAY == "Y-m-d"
  {
    Config(None, None, ".log", DAY)
  }

  /**
   * Stores a handle on `path`, then fails if it is not writable. The handle is
   * stored before the check, so a failed call still leaves it configured.
   */
  function SetDirectory(c: Config, path: string, getPath: string -> string, writable: string -> bool)
    : (r: (Config, Outcome))
    ensures Valid(c) ==> Valid(r.0)
    ensures r.1.Fail? <==> !writable(path)
    ensures r.1.Fail? ==> r.1.error == DirectoryNotWritable(path)
    ensures GetDirectory(r.0).Some?
    ensures GetDirectory(r.0).value.path == getPath(path)
    ensures GetDirectory(r.0).value.writable <==> r.1.Pass?
    ensures GetSuffix(r.0) == GetSuffix(c)
    ensures GetExtension(r.0) == GetExtension(c)
    ensures GetMode(r.0) == GetMode(c)
  {
    var c' := c.(directory := Some(OpenDirectory(path, getPath, writable)));
    if !c'.directory.value.writable then (c', Fail(DirectoryNotWritable(path)))
    else (c', Pass)
  }

  /** Prepends a dot to `e` unless it already starts with one. */
  function NormaliseExtension(e: string): (r: string)
    requires |e| > 0
    ensures |r| > 0 && r[0] == '.'
    ensures |e| <= |r| && r[|r| - |e|..] == e
    ensures e[0] == '.' <==> r == e
    ensures e[0] != '.' <==> |r| == |e| + 1
  {
    if e[0] == '.' then e else "." + e
  }

  function SetExtension(c: Config, e: string): (r: Config)
    requires |e| > 0
    ensures Valid(r)
    ensures GetExtension(r) == NormaliseExtension(e)
    ensures GetDirectory(r) == GetDirectory(c)
    ensures GetSuffix(r) == GetSuffix(c)
    ensures GetMode(r) == GetMode(c)
  {
    c.(extension := NormaliseExtension(e))
  }

  /** Stores `mode` verbatim: it is not checked against the five patterns. */
  function SetMode(c: Config, mode: string): (r: Config)
    ensures Valid(c) ==> Valid(r)
    ensures GetMode(r) == mode
    ensures GetDirectory(r) == GetDirectory(c)
    ensures GetSuffix(r) == GetSuffix(c)
    ensures GetExtension(r) == GetExtension(c)
  {
    c.(mode := mode)
  }

  function SetSuffix(c: Config, suffix: string): (r: Config)
    ensures Valid(c) ==> Valid(r)
    ensures GetSuffix(r) == Some(suffix)
    ensures GetDirectory(r) == GetDirectory(c)
    ensures GetExtension(r) == GetExtension(c)
    ensures GetMode(r) == GetMode(c)
  {
    c.(suffix := Some(suffix))
  }

  /**
   * The name of a log file: the directory path, the formatted date, the suffix
   * (empty when unset) and the extension, joined with no separator.
   */
  function FileName(path: string, stamp: string, suffix: Option<string>, extension: string): string
  {
    path + stamp + suffix.GetOr("") + extension
  }

  /** Each part of a file name sits where `FileName` puts it, with nothing between the parts. */
  lemma FileNameLayout(path: string, stamp: string, suffix: Option<string>, extension: string)
    ensures var name := FileName(path, stamp, suffix, extension);
            && |name| == |path| + |stamp| + |suffix.GetOr("")| + |extension|
            && name[..|path|] == path
            && name[|path|..|path| + |stamp|] == stamp
            && name[|path| + |stamp|..|name| - |extension|] == suffix.GetOr("")
            && name[|name| - |extension|..] == extension
  {
  }

  /**
   * The file the adapter writes to at instant `now`: the directory's path, then
   * the date formatted with the configured mode, then the suffix and extension.
   */
  function GenerateFileName(c: Config, format: (string, int) -> string, now: int): (name: string)
    requires c.directory.Some?
    ensures var path := GetDirectory(c).value.path;
            var tail := GetSuffix(c).GetOr("") + GetExtension(c);
            && |path| + |tail| <= |name|
            && name[..|path|] == path
            && name[|path|..|name| - |tail|] == format(GetMode(c), now)
            && name[|name| - |tail|..] == tail
  {
    FileNameLayout(c.directory.value.path, format(c.mode, now), c.suffix, c.extension);
    FileName(c.directory.value.path, format(c.mode, now), c.suffix, c.extension)
  }

  /** One log entry as stored: the data followed by a newline. */
  function Line(data: string): string
  {
    data + "\n"
  }

  /**
   * Appends `data` and a newline to the current log file, creating the file
   * first when it is missing. Fails, touching nothing, when no directory is set.
   */
  function Write(c: Config, fs: FileSystem, data: string, format: (string, int) -> string, now: int)
    : (r: (FileSystem, Outcome))
    ensures r.1.Fail? <==> c.directory.None?
    ensures r.1.Fail? ==> r.1.error == DirectoryNotSet && r.0 == fs
    ensures r.1.Pass? ==>
              var name := GenerateFileName(c, format, now);
              && Exists(r.0, name)
              && Contents(r.0, name) == Contents(fs, name) + Line(data)
              && r.0.Keys == fs.Keys + {name}
              && SameElsewhere(fs, r.0, name)
  {
    if c.directory.None? then (fs, Fail(DirectoryNotSet))
    else
      var name := GenerateFileName(c, format, now);
      var created := if !Exists(fs, name) then Create(fs, name) else fs;
      (Append(created, name, Line(data)), Pass)
  }
}
