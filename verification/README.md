# sFire logging: the rotating file adapter, in Dafny

This project models `FileAdapter` from the sFire logging package. `FileAdapter` is a log writer
that appends one line per `write` call to a file. The file's name is rebuilt on every call from
four parts: a directory, the current date formatted with a rotation pattern, an optional suffix
and an extension. Log files therefore rotate automatically when the formatted date changes.

The adapter's four settings are an immutable record, `FileAdapter.Config`. Each setter returns
the updated record, where PHP returns `$this`. The file system is a `map<string, string>` from
path to contents (module `FileControl`). `Write` returns the new file system together with an
`Outcome`. The configuration is passed in by value, so a write cannot change any setting.

The environment is passed in as parameters:
- PHP's `date($mode)` is a function `format(pattern, now)` together with the instant `now`.
  Its meaning is left uninterpreted.
- The directory library's writability check is a function `writable(path)`.
- The path the directory library reports (`getPath`) is a function `getPath(path)`.

Modules:
- `Wrappers`: `Option`, standing for PHP's `null`.
- `FileControl`: the file system map, directory handles, and create and append.
- `FileAdapter`: the five mode constants, the configuration, the setters and getters, file naming and `Write`.
- `Rotation`: properties that relate several calls. These cover rotation, the contents of files
  after a run of writes, and a worked scenario.

In `setDirectory`, line 71 assigns the directory before line 73 checks it. A failed call
therefore leaves the non-writable directory configured, and a later `write` passes the
null-directory guard at line 164. `Rotation.FailedSetDirectoryStillConfigures` states this.

The getters (lines 85-153) are `GetDirectory`, `GetSuffix`, `GetExtension` and `GetMode`. They
read one field each. The setter and constructor contracts are stated through them.

## Model

| member | source | states |
|---|---|---|
| FileAdapter.NewAdapter | src/Adapter/FileAdapter.php:28-60 | a fresh adapter has no directory and no suffix, extension ".log" and mode DAY = "Y-m-d", and satisfies the extension invariant |
| FileAdapter.SetDirectory | src/Adapter/FileAdapter.php:69-78 | fails with a not-writable error exactly when the oracle says the path is not writable; in both cases the directory is stored, with the path the library reports for it; suffix, extension and mode are unchanged |
| FileAdapter.NormaliseExtension | src/Adapter/FileAdapter.php:95-101 | the result starts with a dot and ends with the argument; it equals the argument iff the argument starts with a dot, and is one character longer iff it does not |
| FileAdapter.SetExtension | src/Adapter/FileAdapter.php:95-111 | the getter returns the normalised extension, so the invariant holds; directory, suffix and mode are unchanged |
| FileAdapter.SetMode | src/Adapter/FileAdapter.php:119-132 | any string is stored verbatim and returned by the getter, with no check against the five patterns; the other settings are unchanged |
| FileAdapter.SetSuffix | src/Adapter/FileAdapter.php:140-153 | the getter returns the given suffix; the other settings are unchanged |
| FileAdapter.FileNameLayout | src/Adapter/FileAdapter.php:186 | a file name is the path, then the formatted date, then the suffix (empty when unset), then the extension, with no separator; each segment is stated at its position, and the length is the sum of the parts |
| FileAdapter.GenerateFileName | src/Adapter/FileAdapter.php:185-187 | the generated name starts with the directory's reported path and ends with the suffix (empty when unset) followed by the extension, and what lies between them is exactly the current date formatted with the configured mode |
| FileAdapter.Write | src/Adapter/FileAdapter.php:162-178 | fails iff no directory is set, and then leaves the file system unchanged; otherwise the generated file exists and holds its old contents (empty if absent) followed by data and a newline; the only new path is that file, and every other path is unchanged |
| FileControl.Create | src/Adapter/FileAdapter.php:172-174 | the file exists afterwards and is empty; no other path changes |
| FileControl.Append | src/Adapter/FileAdapter.php:177 | the file's new contents are its old contents followed by the text; no other path changes |
| Rotation.StampOf | src/Adapter/FileAdapter.php:186 | any date it recovers from a name, placed between the path and the suffix plus extension, rebuilds that name |
| Rotation.StampRoundTrip | src/Adapter/FileAdapter.php:186 | the formatted date can be recovered from every generated file name, given the path, suffix and extension |
| Rotation.RotationFollowsFormattedDate | src/Adapter/FileAdapter.php:185-187 | for a fixed configuration, two instants give the same file name iff the pattern formats them alike (rotation, both directions) |
| Rotation.NormaliseIdempotent | src/Adapter/FileAdapter.php:98 | normalising an extension twice gives the same as normalising it once |
| Rotation.SameBucketAppendsInOrder | src/Adapter/FileAdapter.php:168-177 | two writes in one bucket leave the file holding the old contents, then the first line, then the second, and create at most that file |
| Rotation.StraddlingWritesSeparate | src/Adapter/FileAdapter.php:168-187 | two writes in different buckets go to two distinct files, and each file receives only its own line |
| Rotation.WriteContents | src/Adapter/FileAdapter.php:168-177 | one write adds its line to the generated file and adds nothing to any other path |
| Rotation.AppendBucketIsConcat | src/Adapter/FileAdapter.php:177 | appending a bucket's lines one write at a time gives the prior contents followed by the whole bucket |
| Rotation.WriteAllAppends | src/Adapter/FileAdapter.php:162-187 | a run of writes appends to every path, one write at a time, the lines of the writes whose generated name is that path |
| Rotation.WriteAllAccumulates | src/Adapter/FileAdapter.php:162-187 | after a run of writes, each file holds its old contents followed by exactly the lines of the writes whose name is that file, in call order |
| Rotation.WriteAllCreatesTargets | src/Adapter/FileAdapter.php:168-174 | after a run of writes, the existing paths are the old ones plus the generated names |
| Rotation.FailedSetDirectoryStillConfigures | src/Adapter/FileAdapter.php:69-78 | after setting a non-writable directory fails with the not-writable error, that directory is stored as non-writable, and a following write is not refused for a missing directory (line 164) |
| Rotation.DayScenario | src/Adapter/FileAdapter.php:162-187 | case: directory "/var/log/app", reported by the library as "/var/log/app/", DAY mode, suffix "-access", extension "log", date "2024-03-15". Two writes leave "/var/log/app/2024-03-15-access.log" holding "hello\nworld\n" |

## Left out

- src/LoggerInterface.php declares only `write(string $data)`. The model has no interface for it, because it adds no behaviour. `FileAdapter.Write` models that method, with the configuration, the file system and the clock passed explicitly.
- The meaning of PHP `date()` patterns is not modelled: calendar and ISO-week arithmetic, hours, time zones and the system clock. The formatter and the instant are parameters.
- `LoggerAbstract` and the exception classes are not part of this model. The two exceptions become the `Error` values `DirectoryNotWritable(path)` and `DirectoryNotSet`, without their message text.
- The `sFire\FileControl` `Directory` and `File` classes are not part of this model. A directory handle (`FileControl.Directory`, opened by `FileControl.OpenDirectory`) keeps only what the library reports: `getPath` and `isWritable`, both oracles. Files are the entries of the map. I/O failures, permissions that change after configuration, and full disks are not modelled.
- FileAdapter.Write ignores the stored writability of the directory, so a write into a directory found non-writable is modelled as succeeding. In the source, `File::create` and `File::append` (lines 173 and 177) would then act on that directory. Their failure behaviour belongs to the library and is not modelled.
- FileAdapter.SetExtension requires a non-empty extension. On an empty string, line 98 reads `$extension[0]`, and what happens then depends on how PHP handles the resulting warning.
- FileAdapter.NormaliseExtension requires a non-empty extension, for the same reason: on an empty string, line 98 reads `$extension[0]`, and what happens then depends on how PHP handles the resulting warning.
- Concurrent writers to one file are not modelled, because the source has no locking.
- PHP strings are byte strings, and line 98 tests a byte. The model uses strings of characters. The adapter only joins strings and tests whether one starts with ".". Under UTF-8 a string's first byte is "." exactly when its first character is, and encoding respects joining, so nothing the model states changes.
