/** `central.logging.functionality.Logging` (central.logging module): the sink as an
    instance class. Its setters throw `IllegalArgumentException` on a bad value, and
    `equals` compares the three settings. */
module Logging {
  import opened Names
  import opened Timestamp
  import opened LogFiles
  import opened LogTypes
  import opened Rotation
  import opened FileSystem
  import Console

  class Logging {
    var logHandler: Option<Handler>
    var logFolder: File
    var logFileName: string
    var numberLogFiles: int32

    /** What the setters guarantee of the settings. */
    predicate Valid()
      reads this
    {
      numberLogFiles > 0 && |logFileName| > 0
    }

    /** `new Logging()`: stopped, with the default settings. */
    constructor ()
      ensures Valid()
      ensures logHandler == None && logFolder == DefaultFolder
      ensures logFileName == DefaultFileName && numberLogFiles == DefaultNumberLogFiles
    {
      logHandler := None;
      logFolder := DefaultFolder;
      logFileName := DefaultFileName;
      numberLogFiles := DefaultNumberLogFiles;
    }

    /** `new Logging(loggingFolder, logFileName)`: the defaults, then both setters in
        order; the first rejection is the exception the constructor throws. */
    static method Create(loggingFolder: Option<File>, fileName: Option<string>) returns (l: Logging, r: Outcome)
      ensures fresh(l) && l.Valid() && l.logHandler == None && l.numberLogFiles == DefaultNumberLogFiles
      ensures r.Normal? <==> loggingFolder.Some? && fileName.Some? && |fileName.value| > 0
      ensures r.Normal? ==> l.logFolder == loggingFolder.value && l.logFileName == fileName.value
      ensures loggingFolder.None? ==> r == Thrown(IllegalArgumentException(FolderNullMessage))
      ensures loggingFolder.Some? && r.Thrown? ==> r == Thrown(IllegalArgumentException(FileNameInvalidMessage))
    {
      l := new Logging();
      r := l.SetLoggingFolder(loggingFolder);
      if r.Normal? {
        r := l.SetLogFileName(fileName);
      }
    }

    /** `startLogWriting()` on `disk` at time `now`, where `new FileHandler` ends as `open`. */
    method StartLogWriting(disk: Disk, now: DateTime, open: OpenResult) returns (r: Outcome, notices: seq<Notice>)
      requires Valid() && disk.Valid()
      modifies this`logHandler, disk
      ensures disk.Valid()
      ensures var s := Start(old(logHandler), logFolder.path, logFileName, numberLogFiles as int, old(disk.nodes), now, open);
              logHandler == s.handler && disk.nodes == s.nodes && r == s.outcome && notices == s.notices
    {
      var h;
      h, r, notices := StartOn(disk, logHandler, logFolder.path, logFileName, numberLogFiles as int, now, open);
      logHandler := h;
    }

    /** `stopLogWriting()`, where `close()` succeeds exactly when `closeOk`. */
    method StopLogWriting(closeOk: bool) returns (r: Outcome, notices: seq<Notice>)
      modifies this`logHandler
      ensures var s := Stop(old(logHandler), closeOk);
              logHandler == s.handler && r == s.outcome && notices == s.notices
    {
      if logHandler.Some? {
        if closeOk {
          logHandler, r, notices := None, Normal, [];
        } else {
          r, notices := Thrown(LoggingFailureException(CannotStopMessage)), [CouldNotStop];
        }
      } else {
        r, notices := Normal, [NotRunning];
      }
    }

    /** `getLogFiles()`: null when the folder is missing or is not a directory, else exactly the entries
        that start with the base name and end with the extension, in listing order. */
    function GetLogFiles(disk: Disk): (r: Option<seq<string>>)
      reads this, disk
      ensures r.Some? <==> disk.IsDirectory(logFolder.path)
      ensures r.Some? ==> forall x :: x in r.value <==>
                x in disk.nodes[logFolder.path].entries && StartsWith(x, logFileName) && EndsWith(x, LogFileExtension)
      ensures r.Some? && disk.Valid() ==> Distinct(r.value)
    {
      ListLogFiles(disk.nodes, logFolder.path, logFileName)
    }

    /** `setLoggingFolder(File)`: a null folder is rejected. */
    method SetLoggingFolder(folder: Option<File>) returns (r: Outcome)
      modifies this`logFolder
      ensures r.Normal? <==> folder.Some?
      ensures r.Normal? ==> logFolder == folder.value
      ensures r.Thrown? ==> logFolder == old(logFolder) && r.exception == IllegalArgumentException(FolderNullMessage)
    {
      if folder.Some? {
        logFolder, r := folder.value, Normal;
      } else {
        r := Thrown(IllegalArgumentException(FolderNullMessage));
      }
    }

    /** `setLoggingFolder(String)`: a null path is rejected, any other path (the empty one
        too) becomes `new File(path)`. */
    method SetLoggingFolderPath(path: Option<string>) returns (r: Outcome)
      modifies this`logFolder
      ensures r.Normal? <==> path.Some?
      ensures r.Normal? ==> logFolder == File(path.value)
      ensures r.Thrown? ==> logFolder == old(logFolder) && r.exception == IllegalArgumentException(FolderNullMessage)
    {
      if path.Some? {
        logFolder, r := File(path.value), Normal;
      } else {
        r := Thrown(IllegalArgumentException(FolderNullMessage));
      }
    }

    /** `setLogFileName`: a null or empty name is rejected. */
    method SetLogFileName(name: Option<string>) returns (r: Outcome)
      modifies this`logFileName
      ensures r.Normal? <==> name.Some? && |name.value| > 0
      ensures r.Normal? ==> logFileName == name.value
      ensures r.Thrown? ==> logFileName == old(logFileName) && r.exception == IllegalArgumentException(FileNameInvalidMessage)
      ensures old(Valid()) ==> Valid()
    {
      if name.Some? && |name.value| > 0 {
        logFileName, r := name.value, Normal;
      } else {
        r := Thrown(IllegalArgumentException(FileNameInvalidMessage));
      }
    }

    /** `setNumberLogFiles`: zero or less is rejected. */
    method SetNumberLogFiles(n: int32) returns (r: Outcome)
      modifies this`numberLogFiles
      ensures r.Normal? <==> n > 0
      ensures r.Normal? ==> numberLogFiles == n
      ensures r.Thrown? ==> numberLogFiles == old(numberLogFiles) && r.exception == IllegalArgumentException(NumberInvalidMessage)
      ensures old(Valid()) ==> Valid()
    {
      if n > 0 {
        numberLogFiles, r := n, Normal;
      } else {
        r := Thrown(IllegalArgumentException(NumberInvalidMessage));
      }
    }

    /** `logAndPrint(level, msg)` and `logAndPrint(level, msg, thrown)`: the console line;
        the record for the logger and the throwable are not modelled. */
    method LogAndPrint(level: Console.Level, msg: string) returns (line: Console.ConsoleLine)
      ensures line.stream == Console.StdErr <==> level.value == Console.SEVERE.value || level.value == Console.WARNING.value
      ensures line.text == "[" + level.name + "] " + msg
    {
      line := Console.LogAndPrint(level, msg);
      Console.StandardLevelRouting(msg);
    }

    /** `equals(Object)`: the same object, or one with equal name, folder and count. */
    predicate Equals(other: Logging?)
      reads this, other
      ensures Equals(other) ==> other != null && logFileName == other.logFileName &&
                                logFolder == other.logFolder && numberLogFiles == other.numberLogFiles
    {
      if this == other then true
      else if other == null then false
      else logFileName == other.logFileName && logFolder == other.logFolder && numberLogFiles == other.numberLogFiles
    }
  }

  /** `equals` holds exactly between instances with the same settings, whatever their
      handlers, and never with null. */
  lemma EqualsMeansSameSettings(a: Logging, b: Logging?)
    ensures a.Equals(b) <==> b != null && a.logFileName == b.logFileName && a.logFolder == b.logFolder
                                        && a.numberLogFiles == b.numberLogFiles
  {
  }

  /** `equals` is an equivalence relation on instances. */
  lemma EqualsIsEquivalence(a: Logging, b: Logging, c: Logging)
    ensures a.Equals(a)
    ensures a.Equals(b) ==> b.Equals(a)
    ensures a.Equals(b) && b.Equals(c) ==> a.Equals(c)
  {
  }

  /** Two instances made with `new Logging()` are equal, and none equals null. */
  method DefaultsAreEqual() returns (equal: bool, equalsNull: bool)
    ensures equal && !equalsNull
  {
    var a := new Logging();
    var b := new Logging();
    equal := a.Equals(b);
    equalsNull := a.Equals(null);
  }
}
