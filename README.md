# Rotating log-file sink of CentralLogging

CentralLogging writes log records into XML files in a logging folder. On every start
it deletes the first-listed log files, so that, when every delete succeeds, at most a
fixed number remain once the new file is open. The repository holds four near-identical copies of this sink:

- the instance class `Logging`;
- `LoggingHandler` 1.2.0.1, whose setters throw;
- `LoggingHandler` 1.0.0.1 and the first `LoggingHandler`, whose setters only warn.

Each copy has:

- **Three settings:** the folder, the base file name, and the number of files to keep.
- **Two states:** stopped (no `FileHandler` bound) and started.
- **`startLogWriting`:**
  1. Create the folder, or fail if a non-directory is in its place.
  2. Delete listing positions `0 .. len - num` of the matching files. A failed delete only warns.
  3. Open `base + "_" + y_M_d_h_m_s_nano + ".xml"`.
- **`stopLogWriting`:** close the handler.
- **`getLogFiles`:** the filter `startsWith(base) && endsWith(".xml")`.
- **Console routing:** in the two `central.logging` copies, `logAndPrint` prints SEVERE and WARNING on the error stream.

The model is layered as follows.

- `Names`, `Timestamp` and `LogFiles` are pure. They hold:
  - the string prefix and suffix tests;
  - Java's `%d` rendering of the seven time fields with ASCII digits, proved injective;
  - the listing filter `Inventory`;
  - the file-name builder `LogFileName`.
- `Rotation` states `startLogWriting` and `stopLogWriting` on values:
  - `Start` and `Stop` take the handler, the settings and the disk, a map from paths to nodes.
  - The lemmas say what a start does to the number and the identity of the log files.
- `FileSystem` holds three things:
  - the mutable `Disk` class, which stands for `java.io.File`'s `exists`, `isDirectory`, `mkdirs`, `delete` and the file creation of `new FileHandler`;
  - the imperative prune loop `DeleteOldLogFiles`;
  - `StartOn`, the body of `startLogWriting`, proved to act on the disk exactly as `Rotation.Start` says.
- `Logging`, `LoggingHandler`, `LegacyHandler` and `InitialHandler` are the four copies.
  - Each is a class whose fields are the source's fields. The static fields of the handler copies become the fields of one instance.
  - The setters say when they accept a value, and that a rejected value leaves the field unchanged.
  - `StartLogWriting` and `StopLogWriting` change the handler and the disk exactly as `Rotation.Start` and `Rotation.Stop` say.

The code cannot control four outcomes, so each one is a parameter:

- whether each `delete()` succeeds, given as the folder's `locked` set;
- how `new FileHandler` ends (`OpenResult`);
- whether `close()` succeeds (`closeOk`);
- the value of `LocalDateTime.now()` (`DateTime`).

Java `null` arguments are `Option.None`. An exception is an `Outcome.Thrown`. The records written to the sink's own logger are `Notice`s.

Two details are modelled as the code does them:

- A failed `close()` throws `LoggingFailureException` and leaves the handler bound, because `logHandler = null` is skipped.
- `getLogFiles` returns null (`None`) when the folder is missing or is not a directory.

Only after a successful close does the sink count as stopped.

## Model

| member | source | states |
|---|---|---|
| Names.RemoveAll | src/central.logging/central/logging/functionality/Logging.java:68-72 | the entries left after deleting a set: exactly the old entries not in the set, and no duplicates introduced |
| Timestamp.DecimalRoundTrip | src/central.logging/central/logging/functionality/Logging.java:75-77 | the decimal digits `%d` prints for a natural read back as that natural |
| Timestamp.FormatD | src/central.logging/central/logging/functionality/Logging.java:75-77 | `%d` never prints an underscore, and begins with `-` exactly for negative values |
| Timestamp.FormatDInjective | src/central.logging/central/logging/functionality/Logging.java:75-77 | different integers are printed differently by `%d` |
| Timestamp.Stamp | src/central.logging/central/logging/functionality/Logging.java:74-77 | the stamp has at least 13 characters (seven non-empty fields, six separators) and begins with the year followed by an underscore |
| Timestamp.StampInjective | src/central.logging/central/logging/functionality/Logging.java:74-77 | two start times with the same `y_M_d_h_m_s_nano` text are equal, though no field is zero-padded |
| LogFiles.Inventory | src/central.logging/central/logging/functionality/Logging.java:121-128 | an entry is listed iff it starts with the base name and ends with `.xml`; the listing is no longer than the entries and has no duplicates when they have none |
| LogFiles.LogFileName | src/central.logging/central/logging/functionality/Logging.java:78-80 | the new file's name passes the listing filter; it is base, `_`, stamp, `.xml`, and the stamp can be read back from it |
| LogFiles.DistinctTimesDistinctNames | src/central.logging/central/logging/functionality/Logging.java:74-80 | starts at different times open differently named files |
| LogFiles.InventoryAppend | src/central.logging/central/logging/functionality/LoggingHandler.java:105-115 | adding one entry extends the listing by that entry exactly when it matches the filter |
| LogFiles.InventoryRemoveAll | src/central.logging/central/logging/functionality/LoggingHandler.java:105-115 | deleting entries removes exactly those entries from the listing |
| Console.LogAndPrint | src/central.logging/central/logging/functionality/Logging.java:234-260 | the line goes to the error stream iff the level's value is SEVERE's or WARNING's, and reads `[`, the level name, `] `, the message |
| Console.StandardLevelRouting | src/central.logging/central/logging/functionality/LoggingHandler.java:221-247 | of the standard levels exactly SEVERE and WARNING are printed on the error stream; every line is `"[" + name + "] " + msg` |
| Rotation.ListLogFiles | src/central.logging/central/logging/functionality/Logging.java:121-128 | `listFiles` with the filter: null when the folder is missing or is not a directory (the model has no unreadable folder), else exactly the matching entries |
| Rotation.PruneCount | src/central.logging/central/logging/functionality/Logging.java:68 | the loop visits no position while fewer than `num` files are listed, otherwise `len - num + 1` positions, leaving `num - 1` |
| Rotation.Pruned | src/central.logging/central/logging/functionality/Logging.java:66-72 | the folder after the loop is still a directory with the same locked entries; its listing is given by `PrunedInventory` |
| Rotation.FailedDeletes | src/central.logging/central/logging/functionality/Logging.java:69-71 | one warning per file whose delete failed, in listing order |
| Rotation.WithFile | src/central.logging/central/logging/functionality/Logging.java:78-80 | after the open the folder holds the old entries and the new file, nothing else |
| Rotation.Start | src/central.logging/central/logging/functionality/Logging.java:59-94 | `startLogWriting` on values; a start that throws leaves the sink stopped, and a handler is bound only if one was or the open succeeded; the full contract is `StartContract` |
| Rotation.StartOpened | src/central.logging/central/logging/functionality/Logging.java:59-81 | a start from stopped whose open succeeds binds a handler on the new file, in the pruned folder, without throwing |
| Rotation.StartFails | src/central.logging/central/logging/functionality/Logging.java:78-90 | a start whose open fails has already pruned, throws `LoggingFailureException` with the matching message, and leaves the sink stopped |
| Rotation.StartContract | src/central.logging/central/logging/functionality/Logging.java:59-94 | a start while started only warns; a plain file in the folder's place throws before any deletion; a failed open throws and leaves the sink stopped; a bound handler is on a log file of the folder; no other path changes |
| Rotation.Stop | src/central.logging/central/logging/functionality/Logging.java:99-114 | stop on a stopped sink only warns; afterwards the sink is stopped iff it was or the close succeeded; it throws iff a bound handler fails to close, and then the handler stays bound |
| Rotation.StartStopCycle | src/central.logging/central/logging/functionality/Logging.java:59-114 | start, successful stop, start again: the second start rotates rather than warning, and binds a handler iff its open succeeds |
| Rotation.PrunedInventory | src/central.logging/central/logging/functionality/Logging.java:67-72 | after pruning the listing is the visited files whose delete failed, followed by every unvisited file |
| Rotation.UnvisitedKept | src/central.logging/central/logging/functionality/Logging.java:68 | no file after the last visited position is deleted |
| Rotation.PrunedCount | src/central.logging/central/logging/functionality/Logging.java:67-72 | the number of log files left is `len - k` plus the failed deletes, where `k` is the visit count |
| Rotation.PrunedCountAllDeleted | src/central.logging/central/logging/functionality/Logging.java:67-72 | when every delete succeeds, `min(len, num - 1)` log files are left |
| Rotation.RotatedDistinct | src/central.logging/central/logging/functionality/Logging.java:67-80 | pruning and opening never make a directory list a name twice |
| Rotation.StartPreservesWellFormed | src/central.logging/central/logging/functionality/Logging.java:59-94 | every start keeps every directory free of duplicate names |
| Rotation.RotatedInventory | src/central.logging/central/logging/functionality/Logging.java:67-80 | after prune and open the listing is the pruned listing, with the new name at the end unless it was already there |
| Rotation.RotatedCount | src/central.logging/central/logging/functionality/Logging.java:67-80 | when every delete succeeds, at most `num` log files remain after the open |
| Rotation.RotatedCountFresh | src/central.logging/central/logging/functionality/Logging.java:67-80 | when every delete succeeds and the new name is not taken, `min(len + 1, num)` log files remain |
| Rotation.RotatedMembers | src/central.logging/central/logging/functionality/Logging.java:67-80 | the new file is listed, and every listed file is the new one or was listed before |
| Rotation.StartCount | src/central.logging/central/logging/functionality/Logging.java:59-94 | a successful start with deletes that succeed leaves at most `num` log files, and `min(len + 1, num)` when the new name is fresh |
| Rotation.DoubleStartLeavesOneFile | src/central.logging/central/logging/functionality/Logging.java:59-93 | two starts in a row from a folder without log files: the second changes nothing but warns, and exactly the first start's file is listed |
| Rotation.OpenedNames | src/central/logging/functionality/LoggingHandler.java:47-52 | one opened file name per start time |
| Rotation.FreshName | src/central/logging/functionality/LoggingHandler.java:47-52 | a start at a time none of the earlier starts had opens a name none of them opened |
| Rotation.RepeatedStartsCount | src/central/logging/functionality/LoggingHandler.java:32-66 | from a folder without log files, with distinct times and successful deletes, the k-th start leaves exactly `min(k, num)` log files, all opened by those starts |
| FileSystem.Disk.Mkdirs | src/central.logging/central/logging/functionality/Logging.java:62 | a missing folder becomes an empty directory, and nothing else changes |
| FileSystem.Disk.Delete | src/central.logging/central/logging/functionality/Logging.java:69 | `delete()` succeeds iff the entry is listed and not locked; then the entry alone is removed, otherwise nothing changes |
| FileSystem.Disk.CreateFile | src/central.logging/central/logging/functionality/Logging.java:78-80 | opening the new file adds it to its folder, and nothing else changes |
| FileSystem.DeleteOldLogFiles | src/central.logging/central/logging/functionality/Logging.java:67-72 | the loop deletes the visited prefix of the listing and goes on after each failure; the disk ends as `Rotation.Pruned` and there is one warning per failed delete |
| FileSystem.VisitStep | src/central.logging/central/logging/functionality/Logging.java:68-72 | visiting position `i`: the file is still listed, and one delete of it turns the disk and warnings after `i` visits into those after `i + 1` |
| FileSystem.OpenLogFile | src/central.logging/central/logging/functionality/Logging.java:73-90 | a successful open creates and binds the file; a failed one changes no file and throws `LoggingFailureException` after a severe record |
| FileSystem.StartOn | src/central.logging/central/logging/functionality/Logging.java:59-94 | the body of `startLogWriting` leaves the handler, the disk, the outcome and the records exactly as `Rotation.Start` says |
| Logging.Logging.constructor | src/central.logging/central/logging/functionality/Logging.java:30-41 | a new sink is stopped, with folder `Logs`, base name `Log` and 5 files |
| Logging.Logging.Create | src/central.logging/central/logging/functionality/Logging.java:49-54 | the two-argument constructor succeeds iff the folder is non-null and the name is non-null and non-empty; a null folder is the exception reported first |
| Logging.Logging.StartLogWriting | src/central.logging/central/logging/functionality/Logging.java:59-94 | `startLogWriting` changes the handler and the disk exactly as `Rotation.Start` says |
| Logging.Logging.StopLogWriting | src/central.logging/central/logging/functionality/Logging.java:99-114 | `stopLogWriting` changes the handler exactly as `Rotation.Stop` says |
| Logging.Logging.GetLogFiles | src/central.logging/central/logging/functionality/Logging.java:121-128 | null when the folder is missing or is not a directory (the model has no unreadable folder); otherwise exactly the entries that start with the base name and end with `.xml`, without duplicates |
| Logging.Logging.SetLoggingFolder | src/central.logging/central/logging/functionality/Logging.java:155-161 | accepts iff the folder is non-null; a rejection throws `IllegalArgumentException` and keeps the folder |
| Logging.Logging.SetLoggingFolderPath | src/central.logging/central/logging/functionality/Logging.java:170-176 | accepts every non-null path, the empty one included; a null path throws and keeps the folder |
| Logging.Logging.SetLogFileName | src/central.logging/central/logging/functionality/Logging.java:193-199 | accepts iff the name is non-null and non-empty, and the getter then returns it; a rejection throws and keeps the name |
| Logging.Logging.SetNumberLogFiles | src/central.logging/central/logging/functionality/Logging.java:219-225 | accepts iff the count is positive, and the getter then returns it; a rejection throws and keeps the count |
| Logging.Logging.LogAndPrint | src/central.logging/central/logging/functionality/Logging.java:234-260 | the console line is on the error stream iff the level is SEVERE or WARNING, and reads `"[" + name + "] " + msg` |
| Logging.Logging.Equals | src/central.logging/central/logging/functionality/Logging.java:272-294 | `equals`: an instance equal to another is equal to a non-null one with the same name, folder and count, the `this == obj` shortcut included |
| Logging.EqualsMeansSameSettings | src/central.logging/central/logging/functionality/Logging.java:272-294 | `equals` holds iff the other object is non-null with the same name, folder and count, whatever the handlers are |
| Logging.EqualsIsEquivalence | src/central.logging/central/logging/functionality/Logging.java:272-294 | `equals` is reflexive, symmetric and transitive |
| Logging.DefaultsAreEqual | src/central.logging/central/logging/functionality/Logging.java:272-294 | two default instances are equal, and an instance does not equal null |
| LoggingHandler.LoggingHandler.constructor | src/central.logging/central/logging/functionality/LoggingHandler.java:35-38 | the static fields start stopped, with folder `Logs`, base name `Log` and 5 files |
| LoggingHandler.LoggingHandler.StartLogWriting | src/central.logging/central/logging/functionality/LoggingHandler.java:43-78 | `startLogWriting` changes the handler and the disk exactly as `Rotation.Start` says |
| LoggingHandler.LoggingHandler.StopLogWriting | src/central.logging/central/logging/functionality/LoggingHandler.java:83-98 | `stopLogWriting` changes the handler exactly as `Rotation.Stop` says |
| LoggingHandler.LoggingHandler.GetLogFiles | src/central.logging/central/logging/functionality/LoggingHandler.java:105-115 | null when the folder is missing or is not a directory (the model has no unreadable folder); otherwise exactly the matching entries |
| LoggingHandler.LoggingHandler.SetLoggingFolder | src/central.logging/central/logging/functionality/LoggingHandler.java:142-148 | accepts iff the folder is non-null; a rejection throws and keeps the folder |
| LoggingHandler.LoggingHandler.SetLoggingFolderPath | src/central.logging/central/logging/functionality/LoggingHandler.java:157-163 | accepts every non-null path; a null path throws and keeps the folder |
| LoggingHandler.LoggingHandler.SetLogFileName | src/central.logging/central/logging/functionality/LoggingHandler.java:180-186 | accepts iff the name is non-null and non-empty; a rejection throws and keeps the name |
| LoggingHandler.LoggingHandler.SetNumberLogFiles | src/central.logging/central/logging/functionality/LoggingHandler.java:206-212 | accepts iff the count is positive; a rejection throws and keeps the count |
| LoggingHandler.LoggingHandler.LogAndPrint | src/central.logging/central/logging/functionality/LoggingHandler.java:221-247 | the console line is on the error stream iff the level is SEVERE or WARNING |
| LegacyHandler.LoggingHandler.constructor | src/central/logging/central/logging/functionality/LoggingHandler.java:32-35 | the static fields start stopped, with the default settings |
| LegacyHandler.LoggingHandler.StartLogWriting | src/central/logging/central/logging/functionality/LoggingHandler.java:40-74 | `startLogWriting` changes the handler and the disk exactly as `Rotation.Start` says |
| LegacyHandler.LoggingHandler.StopLogWriting | src/central/logging/central/logging/functionality/LoggingHandler.java:79-94 | `stopLogWriting` changes the handler exactly as `Rotation.Stop` says |
| LegacyHandler.LoggingHandler.GetLogFiles | src/central/logging/central/logging/functionality/LoggingHandler.java:101-111 | null when the folder is missing or is not a directory (the model has no unreadable folder); otherwise exactly the matching entries |
| LegacyHandler.LoggingHandler.SetLoggingFolder | src/central/logging/central/logging/functionality/LoggingHandler.java:137-143 | a null folder is ignored with a warning and never thrown; any other folder is taken |
| LegacyHandler.LoggingHandler.SetLoggingFolderPath | src/central/logging/central/logging/functionality/LoggingHandler.java:151-157 | a null path is ignored with a warning; any other path, the empty one included, is taken |
| LegacyHandler.LoggingHandler.SetLogFileName | src/central/logging/central/logging/functionality/LoggingHandler.java:173-179 | a null or empty name is ignored with a warning, so the name stays non-empty |
| LegacyHandler.LoggingHandler.SetNumberLogFiles | src/central/logging/central/logging/functionality/LoggingHandler.java:198-204 | a count of zero or less is ignored with a warning, so the count stays positive |
| InitialHandler.LoggingHandler.constructor | src/central/logging/functionality/LoggingHandler.java:24-27 | the static fields start stopped, with the default settings |
| InitialHandler.LoggingHandler.StartLogWriting | src/central/logging/functionality/LoggingHandler.java:32-66 | `startLogWriting` changes the handler and the disk exactly as `Rotation.Start` says |
| InitialHandler.LoggingHandler.StopLogWriting | src/central/logging/functionality/LoggingHandler.java:71-85 | `stopLogWriting` changes the handler exactly as `Rotation.Stop` says |
| InitialHandler.LoggingHandler.GetLogFiles | src/central/logging/functionality/LoggingHandler.java:92-101 | null when the folder is missing or is not a directory (the model has no unreadable folder); otherwise exactly the matching entries |
| InitialHandler.LoggingHandler.SetLoggingFolder | src/central/logging/functionality/LoggingHandler.java:127-133 | a null folder is ignored with a warning, so the folder is never null |
| InitialHandler.LoggingHandler.SetLoggingFolderPath | src/central/logging/functionality/LoggingHandler.java:141-147 | a null path is ignored with a warning; the empty path is taken as it is |
| InitialHandler.LoggingHandler.SetLogFileName | src/central/logging/functionality/LoggingHandler.java:163-169 | a null or empty name is ignored with a warning, so the name stays non-empty |
| InitialHandler.LoggingHandler.SetNumberLogFiles | src/central/logging/functionality/LoggingHandler.java:188-194 | a count of zero or less is ignored with a warning, so the count stays positive |

## Left out

- `java.util.logging` is not modelled. This covers the `Logger`, `addHandler`/`removeHandler`, `setUseParentHandlers`, the XML record format and the `.lck` lock files of `FileHandler`. A bound handler is the folder and file name it writes to. The records the sink logs itself are `Notice`s without their texts and throwables.
- `e.printStackTrace()` and the console streams are not modelled as output. `logAndPrint` yields only the chosen stream and the printed line.
- The real clock is not modelled. `LocalDateTime.now()` is the `now` parameter, and `LocalDateTime` is only the seven fields the name uses.
- The order of `listFiles` is whatever the platform gives, and the source never sorts. The model fixes an order by choice instead, and the sequence statements of `PrunedInventory`, `RotatedInventory`, `DoubleStartLeavesOneFile` and `RepeatedStartsCount` hold for the source only as statements about which files are present and how many.
  - The order is the stored sequence of entries.
  - Rotation.WithFile: a created file is placed at the end of the entries. So in the model the file created first is the one the next rotations delete first. The source promises no such thing.
  - Names.RemoveAll: a delete keeps the other entries in their relative order. The source promises nothing about the order after a delete.
  - The stamps are not zero-padded and do not sort by time, so nothing is claimed about deleting the chronologically oldest files.
- Rotation.Start: a `SecurityException` thrown by `exists`, `isDirectory`, `mkdirs`, `listFiles` or `delete` is not modelled. Those calls run outside the `try`, so in the source such an exception leaves `startLogWriting` at once: possibly in the middle of the prune loop, with the folder partly pruned and no handler. In the model these operations are always allowed, and a delete can only succeed or fail.
- Rotation.Start: the argument of `new FileHandler(String)` is taken as a plain path. The real constructor reads it as a pattern that expands `/`, `%t`, `%h`, `%g`, `%u` and `%%`, and adds a `.N` suffix when the file's lock is already held. The model assumes that the folder contains no `%`, that the base name contains no `%` and no `/`, and that no other handler holds the lock. A `/` in the folder is only the path separator, so a nested folder such as `logs/app` opens `logs/app/base_stamp.xml`; a `/` in the base name would put the file in a subfolder the listing never sees. Under those conditions the opened file is `base_stamp.xml` in the folder. Otherwise the opened file can differ: for example with base `Log%g` the source opens `Log0_<stamp>.xml`, which the listing filter `startsWith("Log%g")` never matches.
- FileSystem.Disk.Mkdirs: only the folder itself is created, as an entry of the flat path map. The real `mkdirs()` also creates missing parent directories and adds the folder as an entry of its parent. So StartContract's "no other path changes" holds only for the model's flat map.
- Timestamp.FormatD: the digits are ASCII. `String.format("%d")` uses the zero digit of the default format locale, so the stamp matches the model only when that digit is `0`. Injectivity does not depend on it.
- Paths are not normalised or resolved. The folder is identified by its path string, and the new file by its name inside that folder. The `toPath().resolve` step is not modelled.
- Rotation.ListLogFiles: a listing that fails with an I/O error is not modelled; the model's folder nodes are always readable. In the source, `listFiles` then returns null for an existing directory, `getLogFiles` returns null, and `startLogWriting` throws a `NullPointerException` at `currentLogFiles.length`, before any deletion and without binding a handler. That exception is not a `LoggingFailureException`.
- `mkdirs()` is taken to succeed. In the code, a `mkdirs` that fails is ignored and the following `listFiles` returns null.
- A `FileHandler` that fails to open is taken to leave no file behind.
- The static `logIdentifier` counter, the per-instance logger name, `toString`, `hashCode`, `getLog` and `VERSION` are not modelled.
- `LoggingFailureException.java` and `module-info.java` are not part of this model.
- The test runners are not modelled.
- Java `int` arithmetic in the loop bound `currentLogFiles.length - numberLogFiles` cannot overflow, because the length is non-negative and the count is positive, so plain integers are used.
- Concurrency is not modelled: the static fields of the handler copies are shared between threads, and the model is one sequential instance.
- Logging.Logging.Equals: the `getClass() != obj.getClass()` branch of `equals` is not modelled. The other object is typed `Logging`, so only `null` and `Logging` instances can be compared.
