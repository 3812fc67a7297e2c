/** The first `LoggingHandler` (package `central.logging.functionality` of the `central`
    source tree): the sink over static fields, modelled as one instance. Its
    setters ignore a bad value and only log a warning. */
module InitialHandler {
  import opened Names
  import opened Timestamp
  import opened LogFiles
  import opened LogTypes
  import opened Rotation
  import opened FileSystem

  class LoggingHandler {
    var logHandler: Option<Handler>
    var logFolder: File
    var logFileName: string
    var numberLogFiles: int32

    /** What the setters guarantee of the settings. */
    predicate Valid()
      reads this
    {
      numberLogFiles > 0 && |logFileName| > 0
    }

    /** The static initialisers: stopped, with the default settings. */
    constructor ()
      ensures Valid()
      ensures logHandler == None && logFolder == DefaultFolder
      ensures logFileName == DefaultFileName && numberLogFiles == DefaultNumberLogFiles
    {
      logHandler := None;
      logFolder := DefaultFolder;
      logFileName := DefaultFileName;
      numberLogFiles := DefaultNumberLogFiles;
    }

    /** `startLogWriting()` on `disk` at time `now`, where `new FileHandler` ends as `open`. */
    method StartLogWriting(disk: Disk, now: DateTime, open: OpenResult) returns (r: Outcome, notices: seq<Notice>)
      requires Valid() && disk.Valid()
      modifies this`logHandler, disk
      ensures disk.Valid()
      ensures var s := Start(old(logHandler), logFolder.path, logFileName, numberLogFiles as int, old(disk.nodes), now, open);
              logHandler == s.handler && disk.nodes == s.nodes && r == s.outcome && notices == s.notices
    {
      var h;
      h, r, notices := StartOn(disk, logHandler, logFolder.path, logFileName, numberLogFiles as int, now, open);
      logHandler := h;
    }

    /** `stopLogWriting()`, where `close()` succeeds exactly when `closeOk`. */
    method StopLogWriting(closeOk: bool) returns (r: Outcome, notices: seq<Notice>)
      modifies this`logHandler
      ensures var s := Stop(old(logHandler), closeOk);
              logHandler == s.handler && r == s.outcome && notices == s.notices
    {
      if logHandler.Some? {
        if closeOk {
          logHandler, r, notices := None, Normal, [];
        } else {
          r, notices := Thrown(LoggingFailureException(CannotStopMessage)), [CouldNotStop];
        }
      } else {
        r, notices := Normal, [NotRunning];
      }
    }

    /** `getLogFiles()`: null when the folder is missing or is not a directory, else exactly the entries
        that start with the base name and end with the extension, in listing order. */
    function GetLogFiles(disk: Disk): (r: Option<seq<string>>)
      reads this, disk
      ensures r.Some? <==> disk.IsDirectory(logFolder.path)
      ensures r.Some? ==> forall x :: x in r.value <==>
                x in disk.nodes[logFolder.path].entries && StartsWith(x, logFileName) && EndsWith(x, LogFileExtension)
      ensures r.Some? && disk.Valid() ==> Distinct(r.value)
    {
      ListLogFiles(disk.nodes, logFolder.path, logFileName)
    }

    /** `setLoggingFolder(File)`: a null folder is ignored with a warning. */
    method SetLoggingFolder(folder: Option<File>) returns (notices: seq<Notice>)
      modifies this`logFolder
      ensures logFolder == if folder.Some? then folder.value else old(logFolder)
      ensures notices == if folder.Some? then [] else [FolderNotSet]
    {
      if folder.Some? {
        logFolder, notices := folder.value, [];
      } else {
        notices := [FolderNotSet];
      }
    }

    /** `setLoggingFolder(String)`: a null path is ignored with a warning, any other path
        (the empty one too) becomes `new File(path)`. */
    method SetLoggingFolderPath(path: Option<string>) returns (notices: seq<Notice>)
      modifies this`logFolder
      ensures logFolder == if path.Some? then File(path.value) else old(logFolder)
      ensures notices == if path.Some? then [] else [FolderNotSet]
    {
      if path.Some? {
        logFolder, notices := File(path.value), [];
      } else {
        notices := [FolderNotSet];
      }
    }

    /** `setLogFileName`: a null or empty name is ignored with a warning, so the name
        never becomes empty. */
    method SetLogFileName(name: Option<string>) returns (notices: seq<Notice>)
      modifies this`logFileName
      ensures name.Some? && |name.value| > 0 ==> logFileName == name.value && notices == []
      ensures name.None? || name.value == [] ==> logFileName == old(logFileName) && notices == [FileNameNotSet]
      ensures old(Valid()) ==> Valid()
    {
      if name.Some? && |name.value| > 0 {
        logFileName, notices := name.value, [];
      } else {
        notices := [FileNameNotSet];
      }
    }

    /** `setNumberLogFiles`: zero or less is ignored with a warning, so the count stays
        positive. */
    method SetNumberLogFiles(n: int32) returns (notices: seq<Notice>)
      modifies this`numberLogFiles
      ensures n > 0 ==> numberLogFiles == n && notices == []
      ensures n <= 0 ==> numberLogFiles == old(numberLogFiles) && notices == [NumberNotSet]
      ensures old(Valid()) ==> Valid()
    {
      if n > 0 {
        numberLogFiles, notices := n, [];
      } else {
        notices := [NumberNotSet];
      }
    }
  }
}
