/** The rotation policy of `startLogWriting`, stated on values: the folder check, the
    pruning of the listing, and the new file. Every copy of the sink is proved to change
    its state exactly as `Start` says; the lemmas below are what follows for the number
    of log files. */
module Rotation {
  import opened Names
  import opened Timestamp
  import opened LogFiles
  import opened LogTypes

  /** What a path names on disk. A directory lists its entries in the platform's order;
      `locked` holds the entries whose `delete()` fails. */
  datatype Node = PlainFile | Dir(entries: seq<string>, locked: set<string>)

  type Nodes = map<string, Node>

  /** No directory lists a name twice. */
  predicate WellFormed(nodes: Nodes) {
    forall p :: p in nodes && nodes[p].Dir? ==> Distinct(nodes[p].entries)
  }

  /** `listFiles(filter)`: null (None) when the folder does not exist or is not a directory. */
  function ListLogFiles(nodes: Nodes, folder: string, base: string): (r: Option<seq<string>>)
    ensures r.Some? <==> folder in nodes && nodes[folder].Dir?
    ensures r.Some? ==> forall x :: x in r.value <==> x in nodes[folder].entries && IsLogFile(x, base)
  {
    if folder in nodes && nodes[folder].Dir? then Some(Inventory(nodes[folder].entries, base)) else None
  }

  /** The folder once `mkdirs` has created it where it was missing. */
  function FolderAfterMkdirs(nodes: Nodes, folder: string): (dir: Node)
    requires folder in nodes ==> nodes[folder].Dir?
    ensures dir.Dir?
  {
    if folder in nodes then nodes[folder] else Dir([], {})
  }

  /** How many listing positions `for (i = 0; i <= len - num; i++)` visits: none while
      fewer than `num` files exist, otherwise enough that `num - 1` remain. */
  function PruneCount(len: nat, num: int): (k: nat)
    requires num > 0
    ensures k <= len
    ensures k == 0 <==> len < num
    ensures k > 0 ==> len - k == num - 1
  {
    if len - num + 1 > 0 then len - num + 1 else 0
  }

  /** The listed files the loop tries to delete: a prefix of the listing. */
  function Doomed(listing: seq<string>, num: int): seq<string>
    requires num > 0
  {
    listing[..PruneCount(|listing|, num)]
  }

  /** The files whose deletion succeeds. */
  function Deleted(doomed: seq<string>, locked: set<string>): set<string> {
    set x | x in doomed && x !in locked
  }

  /** The directory after the pruning loop. */
  function Pruned(dir: Node, base: string, num: int): (r: Node)
    requires dir.Dir? && num > 0
    ensures r.Dir? && r.locked == dir.locked
  {
    Dir(RemoveAll(dir.entries, Deleted(Doomed(Inventory(dir.entries, base), num), dir.locked)), dir.locked)
  }

  /** One warning per file the loop could not delete, in listing order. */
  function FailedDeletes(folder: string, files: seq<string>): (r: seq<Notice>)
    ensures |r| == |files|
    ensures forall i :: 0 <= i < |files| ==> r[i] == OldFileNotDeleted(folder, files[i])
  {
    seq(|files|, i requires 0 <= i < |files| => OldFileNotDeleted(folder, files[i]))
  }

  /** The directory once `new FileHandler` has created (or truncated) `name` in it. */
  function WithFile(dir: Node, name: string): (r: Node)
    requires dir.Dir?
    ensures r.Dir? && r.locked == dir.locked
    ensures forall x :: x in r.entries <==> x in dir.entries || x == name
  {
    Dir(if name in dir.entries then dir.entries else dir.entries + [name], dir.locked)
  }

  datatype StartResult = StartResult(handler: Option<Handler>, nodes: Nodes, outcome: Outcome, notices: seq<Notice>)

  /** `startLogWriting` from handler `handler`, folder path `folder`, base name `base`
      and retention count `num` on disk `nodes`, at time `now`, the handler's constructor
      ending as `open`. Its properties are stated by `StartContract` below. */
  function Start(handler: Option<Handler>, folder: string, base: string, num: int,
                 nodes: Nodes, now: DateTime, open: OpenResult): (r: StartResult)
    requires num > 0
    // a start that throws leaves the sink stopped
    ensures r.outcome.Thrown? ==> r.handler.None?
    // a handler is bound only if one was, or the open succeeded
    ensures r.handler.Some? ==> handler.Some? || open == Opened
  {
    if handler.Some? then
      StartResult(handler, nodes, Normal, [AlreadyStarted])
    else if folder in nodes && nodes[folder].PlainFile? then
      StartResult(None, nodes, Thrown(LoggingFailureException(NotADirectoryMessage)), [])
    else
      var dir := FolderAfterMkdirs(nodes, folder);
      var pruned := Pruned(dir, base, num);
      var warnings := FailedDeletes(folder, Among(Doomed(Inventory(dir.entries, base), num), dir.locked));
      var name := LogFileName(base, Stamp(now));
      match open
      case Opened =>
        StartResult(Some(FileHandler(folder, name)), nodes[folder := WithFile(pruned, name)], Normal, warnings)
      case OpenSecurityException =>
        StartResult(None, nodes[folder := pruned], Thrown(LoggingFailureException(SecurityProblemMessage)),
                    warnings + [SecurityProblem])
      case OpenIOException =>
        StartResult(None, nodes[folder := pruned], Thrown(LoggingFailureException(NotWritableMessage)),
                    warnings + [NotWritable])
  }

  /** The folder after a start that opens `name`: pruned, then holding the new file. */
  function Rotated(dir: Node, base: string, num: int, name: string): (r: Node)
    requires dir.Dir? && num > 0
    ensures r.Dir? && r.locked == dir.locked
  {
    WithFile(Pruned(dir, base, num), name)
  }

  /** The warnings of a start that gets past the folder check: one per failed delete,
      then the severe record of a failed open. */
  function StartNotices(dir: Node, folder: string, base: string, num: int, open: OpenResult): seq<Notice>
    requires dir.Dir? && num > 0
  {
    FailedDeletes(folder, Among(Doomed(Inventory(dir.entries, base), num), dir.locked)) + OpenNotices(open)
  }

  /** The severe record a failed open writes before the exception. */
  function OpenNotices(open: OpenResult): seq<Notice> {
    match open
    case Opened => []
    case OpenSecurityException => [SecurityProblem]
    case OpenIOException => [NotWritable]
  }

  /** A start from a stopped sink whose file opens. */
  lemma StartOpened(folder: string, base: string, num: int, nodes: Nodes, now: DateTime)
    requires num > 0 && (folder in nodes ==> nodes[folder].Dir?)
    ensures var dir := FolderAfterMkdirs(nodes, folder);
            var name := LogFileName(base, Stamp(now));
            Start(None, folder, base, num, nodes, now, Opened) ==
              StartResult(Some(FileHandler(folder, name)), nodes[folder := Rotated(dir, base, num, name)],
                          Normal, StartNotices(dir, folder, base, num, Opened))
  {
  }

  /** The message of the exception a failed open is reported with. */
  function OpenFailureMessage(open: OpenResult): string {
    if open == OpenSecurityException then SecurityProblemMessage else NotWritableMessage
  }

  /** A start from a stopped sink whose file does not open: pruning has happened, the
      sink stays stopped. */
  lemma StartFails(folder: string, base: string, num: int, nodes: Nodes, now: DateTime, open: OpenResult)
    requires num > 0 && (folder in nodes ==> nodes[folder].Dir?) && open != Opened
    ensures var dir := FolderAfterMkdirs(nodes, folder);
            Start(None, folder, base, num, nodes, now, open) ==
              StartResult(None, nodes[folder := Pruned(dir, base, num)],
                          Thrown(LoggingFailureException(OpenFailureMessage(open))),
                          StartNotices(dir, folder, base, num, open))
  {
  }

  /** What `startLogWriting` promises, on every input. */
  lemma StartContract(handler: Option<Handler>, folder: string, base: string, num: int,
                      nodes: Nodes, now: DateTime, open: OpenResult)
    requires num > 0
    ensures var r := Start(handler, folder, base, num, nodes, now, open);
            // a second start is a no-op apart from its warning
            && (handler.Some? ==> r.handler == handler && r.nodes == nodes && r.outcome == Normal &&
                                  r.notices == [AlreadyStarted])
            // a file in the folder's place fails before anything is deleted
            && (handler.None? && folder in nodes && nodes[folder].PlainFile? ==>
                  r.outcome == Thrown(LoggingFailureException(NotADirectoryMessage)) && r.nodes == nodes)
            // an open that fails throws and leaves the sink stopped, after pruning
            && (handler.None? && open != Opened ==> r.outcome.Thrown? && r.handler.None?)
            && (r.outcome.Thrown? ==> r.handler.None?)
            // a start that binds a handler binds one on a log file of the folder
            && (handler.None? && r.handler.Some? ==>
                  r.outcome == Normal && r.handler.value.folder == folder &&
                  folder in r.nodes && r.nodes[folder].Dir? &&
                  r.handler.value.file in Inventory(r.nodes[folder].entries, base))
            // nothing but the log folder changes on disk
            && (forall p :: p != folder ==> (p in r.nodes <==> p in nodes) && (p in nodes ==> r.nodes[p] == nodes[p]))
  {
  }

  datatype StopResult = StopResult(handler: Option<Handler>, outcome: Outcome, notices: seq<Notice>)

  /** `stopLogWriting` from handler `handler`, `close()` returning normally exactly when
      `closeOk`. A failed close throws and keeps the handler bound. */
  function Stop(handler: Option<Handler>, closeOk: bool): (r: StopResult)
    // a stopped sink stays stopped and only warns
    ensures handler.None? ==> r.handler.None? && r.outcome == Normal && r.notices == [NotRunning]
    // afterwards the sink is stopped exactly when it was, or the close succeeded
    ensures r.handler.None? <==> handler.None? || closeOk
    // a stop throws only when the close fails, and then nothing changes
    ensures r.outcome.Thrown? <==> handler.Some? && !closeOk
    ensures r.outcome.Thrown? ==> r.handler == handler && r.notices == [CouldNotStop] &&
                                  r.outcome.exception == LoggingFailureException(CannotStopMessage)
  {
    if handler.Some? then
      if closeOk then StopResult(None, Normal, [])
      else StopResult(handler, Thrown(LoggingFailureException(CannotStopMessage)), [CouldNotStop])
    else StopResult(None, Normal, [NotRunning])
  }

  /** A start that opens its file followed by a stop that closes it returns the sink to
      stopped, so the next start rotates again instead of only warning. */
  lemma StartStopCycle(folder: string, base: string, num: int, nodes: Nodes, now: DateTime,
                       later: DateTime, open: OpenResult)
    requires num > 0 && (folder in nodes ==> nodes[folder].Dir?)
    ensures var started := Start(None, folder, base, num, nodes, now, Opened);
            var stopped := Stop(started.handler, true);
            var again := Start(stopped.handler, folder, base, num, started.nodes, later, open);
            && started.handler.Some? && stopped.handler.None? && stopped.outcome == Normal
            && AlreadyStarted !in again.notices
            && (again.handler.Some? <==> open == Opened)
  {
    StartOpened(folder, base, num, nodes, now);
    var n := Start(None, folder, base, num, nodes, now, Opened).nodes;
    var dir := FolderAfterMkdirs(n, folder);
    var failed := FailedDeletes(folder, Among(Doomed(Inventory(dir.entries, base), num), dir.locked));
    assert AlreadyStarted !in failed;
    if open == Opened {
      StartOpened(folder, base, num, n, later);
    } else {
      StartFails(folder, base, num, n, later, open);
    }
  }

  /** The log files left after pruning: those the loop could not delete, then the ones it
      did not visit. */
  lemma PrunedInventory(dir: Node, base: string, num: int)
    requires dir.Dir? && Distinct(dir.entries) && num > 0
    ensures var listing := Inventory(dir.entries, base);
            var k := PruneCount(|listing|, num);
            Inventory(Pruned(dir, base, num).entries, base) == Among(listing[..k], dir.locked) + listing[k..]
  {
    var listing := Inventory(dir.entries, base);
    var k := PruneCount(|listing|, num);
    var doomed := listing[..k];
    var d := Deleted(doomed, dir.locked);
    InventoryRemoveAll(dir.entries, base, d);
    TakeDrop(listing, k);
    RemoveAllConcat(doomed, listing[k..], d);
    RemoveIsAmong(doomed, d, dir.locked);
    UnvisitedKept(listing, k, dir.locked);
  }

  lemma TakeDrop(s: seq<string>, k: nat)
    requires k <= |s|
    ensures s == s[..k] + s[k..]
  {
  }

  /** The loop deletes only files it visits, so the files after position `k` all stay. */
  lemma UnvisitedKept(listing: seq<string>, k: nat, locked: set<string>)
    requires Distinct(listing) && k <= |listing|
    ensures RemoveAll(listing[k..], Deleted(listing[..k], locked)) == listing[k..]
  {
    var d := Deleted(listing[..k], locked);
    forall x | x in listing[k..] ensures x !in d {
      var j :| 0 <= j < |listing[k..]| && listing[k..][j] == x;
      assert listing[k + j] == x;
    }
    RemoveAllNone(listing[k..], d);
  }

  /** Pruning tolerates failed deletes: each file that resisted stays. */
  lemma PrunedCount(dir: Node, base: string, num: int)
    requires dir.Dir? && Distinct(dir.entries) && num > 0
    ensures var listing := Inventory(dir.entries, base);
            var k := PruneCount(|listing|, num);
            |Inventory(Pruned(dir, base, num).entries, base)| == |listing| - k + |Among(listing[..k], dir.locked)|
  {
    PrunedInventory(dir, base, num);
  }

  /** When no listed file resists deletion, at most `num - 1` log files remain. */
  lemma PrunedCountAllDeleted(dir: Node, base: string, num: int)
    requires dir.Dir? && Distinct(dir.entries) && num > 0
    requires forall x :: x in Inventory(dir.entries, base) ==> x !in dir.locked
    ensures |Inventory(Pruned(dir, base, num).entries, base)| == Min(|Inventory(dir.entries, base)|, num - 1)
  {
    var listing := Inventory(dir.entries, base);
    var k := PruneCount(|listing|, num);
    PrunedCount(dir, base, num);
    AmongNone(listing[..k], dir.locked);
  }

  function Min(a: int, b: int): int {
    if a < b then a else b
  }

  /** Pruning and adding a file keep a directory free of duplicate names. */
  lemma RotatedDistinct(dir: Node, base: string, num: int, name: string)
    requires dir.Dir? && Distinct(dir.entries) && num > 0
    ensures Distinct(Pruned(dir, base, num).entries) && Distinct(Rotated(dir, base, num, name).entries)
  {
    var pruned := Pruned(dir, base, num);
    if name !in pruned.entries {
      DistinctAppend(pruned.entries, name);
    }
  }

  lemma WellFormedUpdate(nodes: Nodes, folder: string, dir: Node)
    requires WellFormed(nodes) && dir.Dir? && Distinct(dir.entries)
    ensures WellFormed(nodes[folder := dir])
  {
  }

  /** A start keeps every directory free of duplicate names. */
  lemma StartPreservesWellFormed(handler: Option<Handler>, folder: string, base: string, num: int,
                                 nodes: Nodes, now: DateTime, open: OpenResult)
    requires num > 0 && WellFormed(nodes)
    ensures WellFormed(Start(handler, folder, base, num, nodes, now, open).nodes)
  {
    if handler.None? && !(folder in nodes && nodes[folder].PlainFile?) {
      var dir := FolderAfterMkdirs(nodes, folder);
      var name := LogFileName(base, Stamp(now));
      RotatedDistinct(dir, base, num, name);
      WellFormedUpdate(nodes, folder, Pruned(dir, base, num));
      WellFormedUpdate(nodes, folder, Rotated(dir, base, num, name));
    }
  }

  /** Adding `name` to a pruned folder: the listing gains `name` at its end unless `name`
      was there already. */
  lemma RotatedInventory(dir: Node, base: string, num: int, name: string)
    requires dir.Dir? && num > 0 && IsLogFile(name, base)
    ensures var kept := Inventory(Pruned(dir, base, num).entries, base);
            Inventory(Rotated(dir, base, num, name).entries, base) ==
              if name in Pruned(dir, base, num).entries then kept else kept + [name]
  {
    var pruned := Pruned(dir, base, num);
    if name !in pruned.entries {
      InventoryAppend(pruned.entries, base, name);
    }
  }

  /** When every listed log file can be deleted, pruning then adding `name` leaves at
      most `num` log files. */
  lemma RotatedCount(dir: Node, base: string, num: int, name: string)
    requires dir.Dir? && Distinct(dir.entries) && num > 0 && IsLogFile(name, base)
    requires forall x :: x in Inventory(dir.entries, base) ==> x !in dir.locked
    ensures |Inventory(Rotated(dir, base, num, name).entries, base)| <= num
  {
    PrunedCountAllDeleted(dir, base, num);
    RotatedInventory(dir, base, num, name);
  }

  /** ... and one more than were listed, up to `num`, when `name` was not there yet. */
  lemma RotatedCountFresh(dir: Node, base: string, num: int, name: string)
    requires dir.Dir? && Distinct(dir.entries) && num > 0 && IsLogFile(name, base)
    requires forall x :: x in Inventory(dir.entries, base) ==> x !in dir.locked
    requires name !in dir.entries
    ensures |Inventory(Rotated(dir, base, num, name).entries, base)| == Min(|Inventory(dir.entries, base)| + 1, num)
  {
    PrunedCountAllDeleted(dir, base, num);
    RotatedInventory(dir, base, num, name);
    var kept := Inventory(Pruned(dir, base, num).entries, base);
    assert name !in Pruned(dir, base, num).entries;
    assert Inventory(Rotated(dir, base, num, name).entries, base) == kept + [name];
  }

  /** Every log file left after pruning and adding `name` is `name` or was listed before. */
  lemma RotatedMembers(dir: Node, base: string, num: int, name: string)
    requires dir.Dir? && num > 0 && IsLogFile(name, base)
    ensures var after := Inventory(Rotated(dir, base, num, name).entries, base);
            name in after && forall x :: x in after ==> x == name || x in Inventory(dir.entries, base)
  {
  }

  /** When every listed log file can be deleted, a successful start leaves at most `num`
      log files; when the new name is not taken it leaves one more than were listed,
      up to `num`. */
  lemma StartCount(folder: string, base: string, num: int, nodes: Nodes, now: DateTime)
    requires num > 0 && WellFormed(nodes)
    requires folder in nodes ==> nodes[folder].Dir?
    requires forall x :: x in Inventory(FolderAfterMkdirs(nodes, folder).entries, base) ==>
                           x !in FolderAfterMkdirs(nodes, folder).locked
    ensures var r := Start(None, folder, base, num, nodes, now, Opened);
            var dir := FolderAfterMkdirs(nodes, folder);
            folder in r.nodes && r.nodes[folder].Dir? &&
            var after := |Inventory(r.nodes[folder].entries, base)|;
            after <= num &&
            (LogFileName(base, Stamp(now)) !in dir.entries ==> after == Min(|Inventory(dir.entries, base)| + 1, num))
  {
    StartOpened(folder, base, num, nodes, now);
    var dir := FolderAfterMkdirs(nodes, folder);
    var name := LogFileName(base, Stamp(now));
    assert Distinct(dir.entries);
    RotatedCount(dir, base, num, name);
    if name !in dir.entries {
      RotatedCountFresh(dir, base, num, name);
    }
  }

  /** Starting twice in a row from a folder without log files leaves exactly the file the
      first start opened; the second start changes nothing but warns. */
  lemma DoubleStartLeavesOneFile(folder: string, base: string, num: int, nodes: Nodes,
                                 first: DateTime, second: DateTime, open: OpenResult)
    requires num > 0 && WellFormed(nodes)
    requires folder in nodes ==> nodes[folder].Dir? && Inventory(nodes[folder].entries, base) == []
    ensures var r1 := Start(None, folder, base, num, nodes, first, Opened);
            var r2 := Start(r1.handler, folder, base, num, r1.nodes, second, open);
            r1.handler.Some? && r2.handler == r1.handler && r2.nodes == r1.nodes &&
            r2.outcome == Normal && r2.notices == [AlreadyStarted] &&
            folder in r2.nodes && r2.nodes[folder].Dir? &&
            Inventory(r2.nodes[folder].entries, base) == [r1.handler.value.file]
  {
    var dir := FolderAfterMkdirs(nodes, folder);
    var name := LogFileName(base, Stamp(first));
    StartOpened(folder, base, num, nodes, first);
    assert Doomed(Inventory(dir.entries, base), num) == [];
    assert Deleted([], dir.locked) == {};
    RemoveAllNone(dir.entries, {});
    assert Pruned(dir, base, num).entries == dir.entries;
    assert name !in dir.entries;
    InventoryAppend(dir.entries, base, name);
  }

  /** `|times|` starts, the i-th at time `times[i]`, each opening its file. Each start
      follows a successful stop; the stops are left out because `Stop(h, true)` only
      unbinds the handler (`Start(None, ...)` below) and never touches the disk. */
  function RepeatedStarts(nodes: Nodes, folder: string, base: string, num: int, times: seq<DateTime>): Nodes
    requires num > 0
    decreases |times|
  {
    if times == [] then nodes
    else Start(None, folder, base, num, RepeatedStarts(nodes, folder, base, num, times[..|times| - 1]),
               times[|times| - 1], Opened).nodes
  }

  /** The names of the files opened by starts at `times`, in order. */
  function OpenedNames(base: string, times: seq<DateTime>): (r: seq<string>)
    ensures |r| == |times|
    decreases |times|
  {
    if times == [] then []
    else OpenedNames(base, times[..|times| - 1]) + [LogFileName(base, Stamp(times[|times| - 1]))]
  }

  /** A start at a time none of `times` equals opens a name none of them opened. */
  lemma {:induction false} FreshName(base: string, times: seq<DateTime>, t: DateTime)
    requires forall i :: 0 <= i < |times| ==> times[i] != t
    ensures LogFileName(base, Stamp(t)) !in OpenedNames(base, times)
    decreases |times|
  {
    if times != [] {
      var m := |times| - 1;
      FreshName(base, times[..m], t);
      DistinctTimesDistinctNames(base, times[m], t);
    }
  }

  /** What holds of the log folder after starts at `times`, each opening its file, from a
      folder without log files: every log file left was opened by one of the starts, and
      `min(|times|, num)` of them are left. */
  ghost predicate AfterStarts(n: Nodes, folder: string, base: string, num: int, times: seq<DateTime>) {
    && WellFormed(n)
    && (folder in n ==> n[folder].Dir? && n[folder].locked == {})
    && |Inventory(FolderAfterMkdirs(n, folder).entries, base)| == Min(|times|, num)
    && (forall x :: x in Inventory(FolderAfterMkdirs(n, folder).entries, base) ==> x in OpenedNames(base, times))
  }

  lemma LastSplit(s: seq<DateTime>)
    requires |s| > 0
    ensures s == s[..|s| - 1] + [s[|s| - 1]]
  {
  }

  /** Before any start: no log file. */
  lemma NoStarts(nodes: Nodes, folder: string, base: string, num: int)
    requires num > 0 && WellFormed(nodes)
    requires folder in nodes ==> nodes[folder].Dir? && nodes[folder].locked == {} &&
                                 Inventory(nodes[folder].entries, base) == []
    ensures AfterStarts(nodes, folder, base, num, [])
  {
    assert Inventory(FolderAfterMkdirs(nodes, folder).entries, base) == [];
  }

  /** One more start, at a time different from the earlier ones: the folder part. */
  lemma StartAfterFolder(n0: Nodes, folder: string, base: string, num: int, name: string, n: Nodes)
    requires num > 0 && WellFormed(n0) && (folder in n0 ==> n0[folder].Dir? && n0[folder].locked == {})
    requires n == n0[folder := Rotated(FolderAfterMkdirs(n0, folder), base, num, name)]
    ensures WellFormed(n) && n[folder].Dir? && n[folder].locked == {}
    ensures FolderAfterMkdirs(n, folder) == Rotated(FolderAfterMkdirs(n0, folder), base, num, name)
  {
    var dir := FolderAfterMkdirs(n0, folder);
    RotatedDistinct(dir, base, num, name);
    WellFormedUpdate(n0, folder, Rotated(dir, base, num, name));
  }

  /** One more start, at a time different from the earlier ones: the count part. */
  lemma StartAfterCount(dir: Node, base: string, num: int, name: string, before: nat, after: nat)
    requires dir.Dir? && Distinct(dir.entries) && num > 0 && IsLogFile(name, base)
    requires forall x :: x in Inventory(dir.entries, base) ==> x !in dir.locked
    requires |Inventory(dir.entries, base)| == Min(before, num) && name !in dir.entries && after == before + 1
    ensures |Inventory(Rotated(dir, base, num, name).entries, base)| == Min(after, num)
  {
    RotatedCountFresh(dir, base, num, name);
    MinStep(before, num);
  }

  /** One more start, at a time different from the earlier ones: the opened-names part. */
  lemma StartAfterNames(dir: Node, base: string, num: int, earlier: seq<DateTime>, t: DateTime, all: seq<DateTime>)
    requires dir.Dir? && num > 0 && all == earlier + [t]
    requires forall x :: x in Inventory(dir.entries, base) ==> x in OpenedNames(base, earlier)
    ensures forall x :: x in Inventory(Rotated(dir, base, num, LogFileName(base, Stamp(t))).entries, base) ==>
                          x in OpenedNames(base, all)
  {
    var name := LogFileName(base, Stamp(t));
    assert OpenedNames(base, all) == OpenedNames(base, earlier) + [name] by {
      assert all[..|all| - 1] == earlier;
    }
    RotatedMembers(dir, base, num, name);
    MembersStep(Inventory(Rotated(dir, base, num, name).entries, base), Inventory(dir.entries, base),
                OpenedNames(base, earlier), name);
  }

  /** A start at a new time finds its name absent from the folder. */
  lemma StartAfterFresh(dir: Node, base: string, earlier: seq<DateTime>, t: DateTime)
    requires dir.Dir?
    requires forall i :: 0 <= i < |earlier| ==> earlier[i] != t
    requires forall x :: x in Inventory(dir.entries, base) ==> x in OpenedNames(base, earlier)
    ensures LogFileName(base, Stamp(t)) !in dir.entries
  {
    FreshName(base, earlier, t);
    assert LogFileName(base, Stamp(t)) !in Inventory(dir.entries, base);
  }

  /** One more start, at a time different from the earlier ones. */
  lemma StartAfter(n0: Nodes, folder: string, base: string, num: int, earlier: seq<DateTime>, t: DateTime,
                   n: Nodes, all: seq<DateTime>)
    requires num > 0 && AfterStarts(n0, folder, base, num, earlier)
    requires forall i :: 0 <= i < |earlier| ==> earlier[i] != t
    requires n == n0[folder := Rotated(FolderAfterMkdirs(n0, folder), base, num, LogFileName(base, Stamp(t)))]
    requires all == earlier + [t]
    ensures AfterStarts(n, folder, base, num, all)
  {
    var dir := FolderAfterMkdirs(n0, folder);
    var name := LogFileName(base, Stamp(t));
    StartAfterFolder(n0, folder, base, num, name, n);
    StartAfterFresh(dir, base, earlier, t);
    StartAfterCount(dir, base, num, name, |earlier|, |all|);
    StartAfterNames(dir, base, num, earlier, t, all);
  }

  lemma MinStep(k: nat, num: int)
    ensures Min(Min(k, num) + 1, num) == Min(k + 1, num)
  {
  }

  lemma MembersStep(after: seq<string>, before: seq<string>, names: seq<string>, name: string)
    requires forall x :: x in after ==> x == name || x in before
    requires forall x :: x in before ==> x in names
    ensures forall x :: x in after ==> x in names + [name]
  {
  }

  /** Starting from a folder without log files, with distinct start times and deletes that
      succeed, the k-th start leaves exactly `min(k, num)` log files, each one opened by
      one of the starts. */
  lemma {:induction false} RepeatedStartsCount(nodes: Nodes, folder: string, base: string, num: int, times: seq<DateTime>)
    requires num > 0 && WellFormed(nodes)
    requires forall i, j :: 0 <= i < j < |times| ==> times[i] != times[j]
    requires folder in nodes ==> nodes[folder].Dir? && nodes[folder].locked == {} &&
                                 Inventory(nodes[folder].entries, base) == []
    ensures AfterStarts(RepeatedStarts(nodes, folder, base, num, times), folder, base, num, times)
    decreases |times|
  {
    if times == [] {
      NoStarts(nodes, folder, base, num);
    } else {
      var m := |times| - 1;
      var earlier, t := times[..m], times[m];
      assert forall i, j :: 0 <= i < j < |earlier| ==> earlier[i] != earlier[j];
      assert forall i :: 0 <= i < |earlier| ==> earlier[i] != t by {
        forall i | 0 <= i < |earlier| ensures earlier[i] != t {
          assert earlier[i] == times[i];
        }
      }
      RepeatedStartsCount(nodes, folder, base, num, earlier);
      var n0 := RepeatedStarts(nodes, folder, base, num, earlier);
      StartOpened(folder, base, num, n0, t);
      LastSplit(times);
      StartAfter(n0, folder, base, num, earlier, t, RepeatedStarts(nodes, folder, base, num, times), times);
    }
  }
}
