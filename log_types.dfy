/** Values shared by every copy of the sink: Java `null` as `Option`, `java.io.File`,
    the active handler, the exceptions the sink throws and the records it writes to its
    own logger. */
module LogTypes {

  datatype Option<T> = None | Some(value: T)

  /** Java's 32-bit `int`, the type of the retention count. */
  newtype int32 = x: int | -0x8000_0000 <= x < 0x8000_0000

  /** A `java.io.File`; two files are equal when their paths are. */
  datatype File = File(path: string)

  /** The `FileHandler` bound while logging runs: the folder it was opened in and the file name. */
  datatype Handler = FileHandler(folder: string, file: string)

  /** What `new FileHandler(path)` does: open the file, or throw a `SecurityException`
      or an `IOException`. */
  datatype OpenResult = Opened | OpenSecurityException | OpenIOException

  /** The exceptions the sink throws, with the message each is created with. */
  datatype Exception =
    | IllegalArgumentException(message: string)
    | LoggingFailureException(message: string)

  const FolderNullMessage := "The logging folder cannot be null."
  const FileNameInvalidMessage := "The log file name cannot be null or empty."
  const NumberInvalidMessage := "The number of log files cannot be zero or less."
  const NotADirectoryMessage := "The specified logging folder exists, but is not a directory."
  const SecurityProblemMessage := "Security problem accessing log file."
  const NotWritableMessage := "The log file could not be written to."
  const CannotStopMessage := "Logging could not be stopped."

  /** How an operation ends: it returns, or it throws. */
  datatype Outcome = Normal | Thrown(exception: Exception)

  /** A record the sink writes to its own logger (a warning unless marked severe). */
  datatype Notice =
    | AlreadyStarted                      // "Logging has already been started."
    | NotRunning                          // "No logging is currently performed ..."
    | OldFileNotDeleted(folder: string, file: string)
    | SecurityProblem                     // severe, before the exception
    | NotWritable                         // severe, before the exception
    | CouldNotStop                        // before the exception of a failed stop
    | FolderNotSet                        // warn-and-ignore setters
    | FileNameNotSet
    | NumberNotSet

  /** The settings a sink starts with. */
  const DefaultFolder: File := File("Logs")
  const DefaultFileName: string := "Log"
  const DefaultNumberLogFiles: int32 := 5
}
