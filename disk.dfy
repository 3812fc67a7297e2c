/** The part of `java.io.File` the sink uses, over one mutable map from paths to nodes,
    and the start procedure every copy of the sink runs on it: create the folder, prune
    the listing with the index loop, open the new log file. */
module FileSystem {
  import opened Names
  import opened Timestamp
  import opened LogFiles
  import opened LogTypes
  import opened Rotation

  class Disk {
    var nodes: Nodes

    predicate Valid()
      reads this
    {
      WellFormed(nodes)
    }

    constructor (initial: Nodes)
      requires WellFormed(initial)
      ensures Valid() && nodes == initial
    {
      nodes := initial;
    }

    /** `exists()`. */
    function Exists(path: string): (b: bool)
      reads this
      ensures b <==> path in nodes
    {
      path in nodes
    }

    /** `isDirectory()`. */
    function IsDirectory(path: string): (b: bool)
      reads this
      ensures b ==> Exists(path)
      ensures b <==> path in nodes && nodes[path].Dir?
    {
      path in nodes && nodes[path].Dir?
    }

    /** `mkdirs()` on a missing path: an empty directory appears there. */
    method Mkdirs(path: string)
      requires Valid() && path !in nodes
      modifies this
      ensures Valid() && nodes == old(nodes)[path := Dir([], {})]
    {
      nodes := nodes[path := Dir([], {})];
    }

    /** `delete()` on entry `name` of directory `folder`: fails on a locked or missing entry. */
    method Delete(folder: string, name: string) returns (ok: bool)
      requires Valid() && folder in nodes && nodes[folder].Dir?
      modifies this
      ensures Valid()
      ensures ok <==> name in old(nodes)[folder].entries && name !in old(nodes)[folder].locked
      ensures nodes == if ok then old(nodes)[folder := Dir(RemoveAll(old(nodes)[folder].entries, {name}),
                                                          old(nodes)[folder].locked)]
                       else old(nodes)
    {
      var dir := nodes[folder];
      ok := name in dir.entries && name !in dir.locked;
      if ok {
        nodes := nodes[folder := Dir(RemoveAll(dir.entries, {name}), dir.locked)];
      }
    }

    /** What `new FileHandler(path)` does to the disk when it opens: the file exists afterwards. */
    method CreateFile(folder: string, name: string)
      requires Valid() && folder in nodes && nodes[folder].Dir?
      modifies this
      ensures Valid() && nodes == old(nodes)[folder := WithFile(old(nodes)[folder], name)]
    {
      var dir := nodes[folder];
      if name !in dir.entries {
        DistinctAppend(dir.entries, name);
      }
      nodes := nodes[folder := WithFile(dir, name)];
    }
  }

  /** The pruning loop `for (int i = 0; i <= currentLogFiles.length - numberLogFiles; i++)`:
      each visited file is deleted, and a failed delete only adds a warning. */
  method DeleteOldLogFiles(disk: Disk, folder: string, currentLogFiles: seq<string>, numberLogFiles: int)
    returns (notices: seq<Notice>)
    requires disk.Valid() && folder in disk.nodes && disk.nodes[folder].Dir? && numberLogFiles > 0
    requires Distinct(currentLogFiles)
    requires forall x :: x in currentLogFiles ==> x in disk.nodes[folder].entries
    modifies disk
    ensures disk.Valid()
    ensures var dir := old(disk.nodes)[folder];
            disk.nodes == old(disk.nodes)[folder :=
              Dir(RemoveAll(dir.entries, Deleted(Doomed(currentLogFiles, numberLogFiles), dir.locked)), dir.locked)]
    ensures notices == FailedDeletes(folder, Among(Doomed(currentLogFiles, numberLogFiles), old(disk.nodes)[folder].locked))
  {
    ghost var n0 := disk.nodes;
    ghost var k := PruneCount(|currentLogFiles|, numberLogFiles);
    notices := [];
    var i := 0;
    VisitedNone(n0, folder, currentLogFiles);
    while i <= |currentLogFiles| - numberLogFiles
      invariant 0 <= i <= k
      invariant disk.Valid()
      invariant disk.nodes == AfterVisits(n0, folder, currentLogFiles, i)
      invariant notices == FailedDeletes(folder, Among(currentLogFiles[..i], n0[folder].locked))
      decreases |currentLogFiles| - numberLogFiles + 1 - i
    {
      var file := currentLogFiles[i];
      VisitStep(n0, folder, currentLogFiles, i);
      var ok := disk.Delete(folder, file);
      if !ok {
        notices := notices + [OldFileNotDeleted(folder, file)];
      }
      i := i + 1;
    }
    assert currentLogFiles[..i] == Doomed(currentLogFiles, numberLogFiles);
  }

  /** The disk once the loop has visited the first `i` files of `files`. */
  ghost function AfterVisits(n0: Nodes, folder: string, files: seq<string>, i: nat): Nodes
    requires folder in n0 && n0[folder].Dir? && i <= |files|
  {
    var dir := n0[folder];
    n0[folder := Dir(RemoveAll(dir.entries, Deleted(files[..i], dir.locked)), dir.locked)]
  }

  lemma VisitedNone(n0: Nodes, folder: string, files: seq<string>)
    requires folder in n0 && n0[folder].Dir?
    ensures AfterVisits(n0, folder, files, 0) == n0
    ensures FailedDeletes(folder, Among(files[..0], n0[folder].locked)) == []
  {
    var dir := n0[folder];
    assert Deleted(files[..0], dir.locked) == {};
    RemoveAllNone(dir.entries, {});
  }

  /** Visiting file `i` of a list without duplicates: it was not deleted before, and it
      is deleted now exactly when it is not locked. */
  lemma DeletedStep(files: seq<string>, i: nat, lk: set<string>)
    requires i < |files| && Distinct(files)
    ensures files[i] !in Deleted(files[..i], lk)
    ensures Deleted(files[..i + 1], lk) == Deleted(files[..i], lk) + (if files[i] in lk then {} else {files[i]})
  {
    assert files[..i + 1] == files[..i] + [files[i]];
  }

  /** The entries left after `i` and after `i + 1` visits. */
  lemma VisitEntries(entries: seq<string>, lk: set<string>, files: seq<string>, i: nat)
    requires i < |files| && Distinct(files) && files[i] in entries
    ensures files[i] in RemoveAll(entries, Deleted(files[..i], lk))
    ensures files[i] !in lk ==>
              RemoveAll(RemoveAll(entries, Deleted(files[..i], lk)), {files[i]})
              == RemoveAll(entries, Deleted(files[..i + 1], lk))
    ensures files[i] in lk ==>
              RemoveAll(entries, Deleted(files[..i], lk)) == RemoveAll(entries, Deleted(files[..i + 1], lk))
  {
    DeletedStep(files, i, lk);
    if files[i] !in lk {
      RemoveAllTwice(entries, Deleted(files[..i], lk), {files[i]});
    } else {
      assert Deleted(files[..i + 1], lk) == Deleted(files[..i], lk);
    }
  }

  /** The warnings after `i + 1` visits: one more exactly when file `i` is locked. */
  lemma NoticesStep(folder: string, files: seq<string>, i: nat, lk: set<string>)
    requires i < |files|
    ensures FailedDeletes(folder, Among(files[..i + 1], lk))
         == FailedDeletes(folder, Among(files[..i], lk)) + (if files[i] in lk then [OldFileNotDeleted(folder, files[i])] else [])
  {
    assert files[..i + 1] == files[..i] + [files[i]];
    AmongConcat(files[..i], [files[i]], lk);
  }

  /** Visiting file `i`: it is still listed, and the disk and the warnings grow as one
      delete of it says. */
  lemma VisitStep(n0: Nodes, folder: string, files: seq<string>, i: nat)
    requires folder in n0 && n0[folder].Dir?
    requires i < |files| && Distinct(files) && files[i] in n0[folder].entries
    ensures var n := AfterVisits(n0, folder, files, i);
            var lk := n0[folder].locked;
            && folder in n && n[folder].Dir? && n[folder].locked == lk
            && files[i] in n[folder].entries
            && (files[i] !in lk ==>
                  n[folder := Dir(RemoveAll(n[folder].entries, {files[i]}), lk)] == AfterVisits(n0, folder, files, i + 1))
            && (files[i] in lk ==> n == AfterVisits(n0, folder, files, i + 1))
            && FailedDeletes(folder, Among(files[..i + 1], lk))
                 == FailedDeletes(folder, Among(files[..i], lk)) + (if files[i] in lk then [OldFileNotDeleted(folder, files[i])] else [])
  {
    var lk := n0[folder].locked;
    var e := RemoveAll(n0[folder].entries, Deleted(files[..i], lk));
    VisitEntries(n0[folder].entries, lk, files, i);
    NoticesStep(folder, files, i, lk);
    UpdateTwice(n0, folder, Dir(e, lk), Dir(RemoveAll(e, {files[i]}), lk));
  }

  /** `logHandler = new FileHandler(path)` for `name` in directory `folder`: the file is
      created and bound when the open succeeds; otherwise nothing changes on the disk, the
      failure is logged as severe and rethrown as a `LoggingFailureException`. */
  method OpenLogFile(disk: Disk, folder: string, name: string, open: OpenResult)
    returns (h: Option<Handler>, r: Outcome, notices: seq<Notice>)
    requires disk.Valid() && folder in disk.nodes && disk.nodes[folder].Dir?
    modifies disk
    ensures disk.Valid()
    ensures disk.nodes == if open == Opened then old(disk.nodes)[folder := WithFile(old(disk.nodes)[folder], name)]
                          else old(disk.nodes)
    ensures h == (if open == Opened then Some(FileHandler(folder, name)) else None)
    ensures r == (if open == Opened then Normal else Thrown(LoggingFailureException(OpenFailureMessage(open))))
    ensures notices == OpenNotices(open)
  {
    match open {
      case Opened =>
        disk.CreateFile(folder, name);
        h, r, notices := Some(FileHandler(folder, name)), Normal, [];
      case OpenSecurityException =>
        h, r, notices := None, Thrown(LoggingFailureException(SecurityProblemMessage)), [SecurityProblem];
      case OpenIOException =>
        h, r, notices := None, Thrown(LoggingFailureException(NotWritableMessage)), [NotWritable];
    }
  }

  /** Two updates of the same key: the second one wins. */
  lemma UpdateTwice(m: Nodes, k: string, a: Node, b: Node)
    ensures m[k := a][k := b] == m[k := b]
  {
  }

  /** The body of `startLogWriting`, shared by every copy of the sink: from handler
      `handler` and settings `folder`, `base`, `num`, at time `now`, with `new FileHandler`
      ending as `open`, it changes the handler, the disk, and the outcome exactly as
      `Rotation.Start` says. */
  method StartOn(disk: Disk, handler: Option<Handler>, folder: string, base: string, num: int,
                 now: DateTime, open: OpenResult)
    returns (h: Option<Handler>, r: Outcome, notices: seq<Notice>)
    requires disk.Valid() && num > 0
    modifies disk
    ensures disk.Valid()
    ensures var s := Start(handler, folder, base, num, old(disk.nodes), now, open);
            h == s.handler && disk.nodes == s.nodes && r == s.outcome && notices == s.notices
  {
    if handler.Some? {
      return handler, Normal, [AlreadyStarted];
    }
    ghost var n0 := disk.nodes;
    if !disk.Exists(folder) {
      disk.Mkdirs(folder);
    } else if !disk.IsDirectory(folder) {
      return None, Thrown(LoggingFailureException(NotADirectoryMessage)), [];
    }
    ghost var dir := FolderAfterMkdirs(n0, folder);
    assert disk.nodes == n0[folder := dir];
    var currentLogFiles := ListLogFiles(disk.nodes, folder, base).value;
    assert currentLogFiles == Inventory(dir.entries, base);
    notices := DeleteOldLogFiles(disk, folder, currentLogFiles, num);
    var pruned := Pruned(dir, base, num);
    assert disk.nodes == n0[folder := pruned];
    var name := LogFileName(base, Stamp(now));
    var extra;
    h, r, extra := OpenLogFile(disk, folder, name, open);
    UpdateTwice(n0, folder, pruned, WithFile(pruned, name));
    notices := notices + extra;
    assert notices == StartNotices(dir, folder, base, num, open);
    if open == Opened {
      StartOpened(folder, base, num, n0, now);
    } else {
      StartFails(folder, base, num, n0, now, open);
    }
  }
}
