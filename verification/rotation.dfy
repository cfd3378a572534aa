/**
 * Properties that relate several calls: the file name determines the formatted
 * date it was built from, so writes rotate exactly when the formatted date
 * changes, and a run of writes leaves every file holding its own bucket's lines
 * in call order.
 */
module Rotation {
  import opened Wrappers
  import opened FileControl
  import opened FileAdapter

  /**
   * Recovers the formatted date from a file name, given the directory path in
   * front of it and the suffix and extension (`tail`) behind it.
   */
  function StampOf(name: string, path: string, tail: string): (r: Option<string>)
    ensures r.Some? ==> path + r.value + tail == name
  {
    if |path| + |tail| <= |name| && name[..|path|] == path && name[|name| - |tail|..] == tail then
      var stamp := name[|path|..|name| - |tail|];
      assert name == name[..|path|] + stamp + name[|name| - |tail|..];
      Some(stamp)
    else
      None
  }

  /** `FileName` keeps the formatted date recoverable. */
  lemma StampRoundTrip(path: string, stamp: string, suffix: Option<string>, extension: string)
    ensures StampOf(FileName(path, stamp, suffix, extension), path, suffix.GetOr("") + extension) == Some(stamp)
  {
    FileNameLayout(path, stamp, suffix, extension);
  }

  /** Rotation: with the configuration fixed, two instants share a log file iff they format alike. */
  lemma RotationFollowsFormattedDate(c: Config, format: (string, int) -> string, n1: int, n2: int)
    requires c.directory.Some?
    ensures GenerateFileName(c, format, n1) == GenerateFileName(c, format, n2)
            <==> format(c.mode, n1) == format(c.mode, n2)
  {
  }

  /** Normalising an extension a second time changes nothing. */
  lemma NormaliseIdempotent(e: string)
    requires |e| > 0
    ensures NormaliseExtension(NormaliseExtension(e)) == NormaliseExtension(e)
  {
  }

  /** Two writes in one bucket append their lines to the same file, in call order. */
  lemma SameBucketAppendsInOrder(c: Config, fs: FileSystem, a: string, b: string,
                                 format: (string, int) -> string, n1: int, n2: int)
    requires c.directory.Some?
    requires format(c.mode, n1) == format(c.mode, n2)
    ensures var fs1 := Write(c, fs, a, format, n1).0;
            var fs2 := Write(c, fs1, b, format, n2).0;
            var name := GenerateFileName(c, format, n1);
            && Contents(fs2, name) == Contents(fs, name) + Line(a) + Line(b)
            && fs2.Keys == fs.Keys + {name}
  {
  }

  /** Two writes in different buckets go to two files, each receiving only its own line. */
  lemma StraddlingWritesSeparate(c: Config, fs: FileSystem, a: string, b: string,
                                 format: (string, int) -> string, n1: int, n2: int)
    requires c.directory.Some?
    requires format(c.mode, n1) != format(c.mode, n2)
    ensures var fs1 := Write(c, fs, a, format, n1).0;
            var fs2 := Write(c, fs1, b, format, n2).0;
            var name1 := GenerateFileName(c, format, n1);
            var name2 := GenerateFileName(c, format, n2);
            && name1 != name2
            && Contents(fs2, name1) == Contents(fs, name1) + Line(a)
            && Contents(fs2, name2) == Contents(fs, name2) + Line(b)
  {
  }

  /** One call of `write`: the data and the instant it was made at. */
  datatype Entry = Entry(data: string, now: int)

  /** Performs the writes of `entries` in order. */
  function WriteAll(c: Config, fs: FileSystem, entries: seq<Entry>, format: (string, int) -> string): FileSystem
    decreases |entries|
  {
    if |entries| == 0 then fs
    else WriteAll(c, Write(c, fs, entries[0].data, format, entries[0].now).0, entries[1..], format)
  }

  /** The lines of the entries that fall into the file `path`, in call order. */
  function Bucket(c: Config, entries: seq<Entry>, format: (string, int) -> string, path: string): string
    requires c.directory.Some?
    decreases |entries|
  {
    if |entries| == 0 then ""
    else
      (if GenerateFileName(c, format, entries[0].now) == path then Line(entries[0].data) else "")
      + Bucket(c, entries[1..], format, path)
  }

  /** The files the entries are written to. */
  function Targets(c: Config, entries: seq<Entry>, format: (string, int) -> string): set<string>
    requires c.directory.Some?
    decreases |entries|
  {
    if |entries| == 0 then {}
    else {GenerateFileName(c, format, entries[0].now)} + Targets(c, entries[1..], format)
  }

  /** The effect of one successful write on the contents of any one path. */
  lemma WriteContents(c: Config, fs: FileSystem, data: string, format: (string, int) -> string, now: int, p: string)
    requires c.directory.Some?
    ensures Contents(Write(c, fs, data, format, now).0, p)
            == Contents(fs, p) + (if GenerateFileName(c, format, now) == p then Line(data) else "")
  {
  }

  /** `prior` followed by the lines of the entries that fall into the file `path`, in call order. */
  function AppendBucket(c: Config, prior: string, entries: seq<Entry>, format: (string, int) -> string, path: string)
    : string
    requires c.directory.Some?
    decreases |entries|
  {
    if |entries| == 0 then prior
    else
      var line := if GenerateFileName(c, format, entries[0].now) == path then Line(entries[0].data) else "";
      AppendBucket(c, prior + line, entries[1..], format, path)
  }

  /** Appending a bucket line by line is appending the whole bucket at once. */
  lemma {:induction false} AppendBucketIsConcat(c: Config, prior: string, entries: seq<Entry>,
                                                format: (string, int) -> string, path: string)
    requires c.directory.Some?
    ensures AppendBucket(c, prior, entries, format, path) == prior + Bucket(c, entries, format, path)
    decreases |entries|
  {
    if |entries| != 0 {
      var line := if GenerateFileName(c, format, entries[0].now) == path then Line(entries[0].data) else "";
      AppendBucketIsConcat(c, prior + line, entries[1..], format, path);
      assert (prior + line) + Bucket(c, entries[1..], format, path)
          == prior + (line + Bucket(c, entries[1..], format, path));
    }
  }

  /** A run of writes appends, to every path, the lines of that path's bucket in call order. */
  lemma {:induction false} WriteAllAppends(c: Config, fs: FileSystem, entries: seq<Entry>,
                                           format: (string, int) -> string, p: string)
    requires c.directory.Some?
    ensures Contents(WriteAll(c, fs, entries, format), p) == AppendBucket(c, Contents(fs, p), entries, format, p)
    decreases |entries|
  {
    if |entries| != 0 {
      var e := entries[0];
      var fs1 := Write(c, fs, e.data, format, e.now).0;
      WriteContents(c, fs, e.data, format, e.now, p);
      WriteAllAppends(c, fs1, entries[1..], format, p);
    }
  }

  /** After a run of writes, every file holds its old contents followed by exactly the lines of its own bucket. */
  lemma WriteAllAccumulates(c: Config, fs: FileSystem, entries: seq<Entry>,
                            format: (string, int) -> string, p: string)
    requires c.directory.Some?
    ensures Contents(WriteAll(c, fs, entries, format), p) == Contents(fs, p) + Bucket(c, entries, format, p)
  {
    WriteAllAppends(c, fs, entries, format, p);
    AppendBucketIsConcat(c, Contents(fs, p), entries, format, p);
  }

  /** A run of writes creates exactly the files it targets that did not exist yet. */
  lemma {:induction false} WriteAllCreatesTargets(c: Config, fs: FileSystem, entries: seq<Entry>,
                                                  format: (string, int) -> string)
    requires c.directory.Some?
    ensures WriteAll(c, fs, entries, format).Keys == fs.Keys + Targets(c, entries, format)
    decreases |entries|
  {
    if |entries| != 0 {
      var e := entries[0];
      var fs1 := Write(c, fs, e.data, format, e.now).0;
      WriteAllCreatesTargets(c, fs1, entries[1..], format);
    }
  }

  /**
   * A failed `SetDirectory` still configures the directory, so a following write
   * is not refused for want of one.
   */
  lemma FailedSetDirectoryStillConfigures(c: Config, fs: FileSystem, path: string, getPath: string -> string,
                                          writable: string -> bool, data: string,
                                          format: (string, int) -> string, now: int)
    requires !writable(path)
    ensures var (c', o) := SetDirectory(c, path, getPath, writable);
            && o == Fail(DirectoryNotWritable(path))
            && c'.directory == Some(Directory(getPath(path), false))
            && Write(c', fs, data, format, now).1 != Fail(DirectoryNotSet)
  {
  }

  /**
   * Directory "/var/log/app" (writable, reported with a trailing separator), day
   * rotation, suffix "-access", extension "log", on a day that formats as
   * "2024-03-15": two writes fill one file with both lines.
   */
  lemma DayScenario(fs: FileSystem, getPath: string -> string, writable: string -> bool,
                    format: (string, int) -> string, now: int)
    requires getPath("/var/log/app") == "/var/log/app/"
    requires writable("/var/log/app")
    requires format(DAY, now) == "2024-03-15"
    requires "/var/log/app/2024-03-15-access.log" !in fs
    ensures var dir := SetDirectory(NewAdapter(), "/var/log/app", getPath, writable);
            var c := SetExtension(SetSuffix(SetMode(dir.0, DAY), "-access"), "log");
            var fs1 := Write(c, fs, "hello", format, now).0;
            var fs2 := Write(c, fs1, "world", format, now).0;
            && dir.1 == Pass
            && Contents(fs1, "/var/log/app/2024-03-15-access.log") == "hello\n"
            && Contents(fs2, "/var/log/app/2024-03-15-access.log") == "hello\nworld\n"
  {
    var dir := SetDirectory(NewAdapter(), "/var/log/app", getPath, writable);
    var c := SetExtension(SetSuffix(SetMode(dir.0, DAY), "-access"), "log");
    var name := "/var/log/app/2024-03-15-access.log";
    assert GenerateFileName(c, format, now) == name by {
      assert c.extension == ".log";
      assert name == "/var/log/app/" + "2024-03-15" + "-access" + ".log";
    }
    var fs1 := Write(c, fs, "hello", format, now).0;
    assert Contents(fs1, name) == "hello\n";
    var fs2 := Write(c, fs1, "world", format, now).0;
    assert Contents(fs2, name) == "hello\n" + Line("world");
  }
}
