/** Which directory entries are log files of a sink, and the name a new log file gets.
    Every copy of the sink shares the extension constant and the filter
    `name.startsWith(logFileName) && name.endsWith(LOG_FILE_EXTENSION)`. */
module LogFiles {
  import opened Names
  import opened Timestamp

  /** `LOG_FILE_EXTENSION`. */
  const LogFileExtension: string := ".xml"

  /** The `FileFilter` of `getLogFiles`. */
  predicate IsLogFile(name: string, base: string) {
    StartsWith(name, base) && EndsWith(name, LogFileExtension)
  }

  /** `listFiles(filter)` on a directory whose entries are listed as `entries`: the
      matching entries, in listing order. */
  function Inventory(entries: seq<string>, base: string): (r: seq<string>)
    ensures forall x :: x in r <==> x in entries && IsLogFile(x, base)
    ensures |r| <= |entries|
    ensures Distinct(entries) ==> Distinct(r)
  {
    if entries == [] then []
    else if IsLogFile(entries[0], base) then [entries[0]] + Inventory(entries[1..], base)
    else Inventory(entries[1..], base)
  }

  /** The name of the file a start opens: `logFileName + "_" + startingTime + LOG_FILE_EXTENSION`.
      The stamp can be read back from between the separator and the extension. */
  function LogFileName(base: string, stamp: string): (r: string)
    ensures IsLogFile(r, base)
    ensures |r| == |base| + 1 + |stamp| + |LogFileExtension|
    ensures r[|base|] == '_' && r[|base| + 1..|r| - |LogFileExtension|] == stamp
  {
    base + "_" + stamp + LogFileExtension
  }

  /** Two starts at different times open differently named files. */
  lemma DistinctTimesDistinctNames(base: string, t: DateTime, u: DateTime)
    requires t != u
    ensures LogFileName(base, Stamp(t)) != LogFileName(base, Stamp(u))
  {
    if LogFileName(base, Stamp(t)) == LogFileName(base, Stamp(u)) {
      StampInjective(t, u);
    }
  }

  /** A file added to the directory shows up at the end of the listing exactly when it matches. */
  lemma {:induction false} InventoryAppend(entries: seq<string>, base: string, name: string)
    ensures Inventory(entries + [name], base)
         == Inventory(entries, base) + (if IsLogFile(name, base) then [name] else [])
  {
    if entries == [] {
      assert entries + [name] == [name];
    } else {
      assert (entries + [name])[1..] == entries[1..] + [name];
      InventoryAppend(entries[1..], base, name);
    }
  }

  /** Deleting entries deletes exactly those entries from the listing. */
  lemma {:induction false} InventoryRemoveAll(entries: seq<string>, base: string, d: set<string>)
    ensures Inventory(RemoveAll(entries, d), base) == RemoveAll(Inventory(entries, base), d)
  {
    if entries != [] {
      InventoryRemoveAll(entries[1..], base, d);
    }
  }
}
