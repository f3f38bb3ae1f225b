/** The one-way synchronisation of the data files (lib/sync.py): every
    record of a source database whose key the destination database lacks
    is copied over; records the destination already has are left alone. */
module Sync {
  import opened Common
  import opened Paths
  import opened Sorting
  import opened RecordStore
  import opened Settings

  /** A database root: container name to container. */
  type Root<V> = map<string, map<string, V>>

  /** The database files on disk, by path, as last committed. */
  type Disk<V> = map<string, Root<V>>

  /** Opening a path with no database file yet gives an empty database. */
  function Stored<V>(disk: Disk<V>, path: string): Root<V>
  {
    if path in disk then disk[path] else map[]
  }

  /** The data files to synchronise: the base names of the log, note and
      errata paths. */
  function SyncFiles(config: Config): (files: seq<string>)
    ensures |files| == 3
  {
    [Basename(config.logPath), Basename(config.notePath), Basename(config.errataPath)]
  }

  /** The loaded settings join the stored file names onto the base
      directory, so the files synchronised are exactly the stored names. */
  lemma SyncFilesAreStoredNames(config: Config, logFile: string, noteFile: string, errataFile: string)
    requires '/' !in logFile && '/' !in noteFile && '/' !in errataFile
    requires config.logPath == PathJoin(config.baseDir, logFile)
    requires config.notePath == PathJoin(config.baseDir, noteFile)
    requires config.errataPath == PathJoin(config.baseDir, errataFile)
    ensures SyncFiles(config) == [logFile, noteFile, errataFile]
  {
    BasenameOfJoin(config.baseDir, logFile);
    BasenameOfJoin(config.baseDir, noteFile);
    BasenameOfJoin(config.baseDir, errataFile);
  }

  /** The checks of the constructor: the destination must be a directory,
      and every file missing from it needs a 'y' or 'Y' (`answers[i]` is
      the reply to the question about `files[i]`). The first refusal ends
      the checks. */
  method Confirm(dstIsDir: bool, dstDir: string, files: seq<string>, existing: set<string>, answers: seq<string>)
    returns (go: bool)
    requires |answers| == |files|
    ensures go <==> Confirmed(dstIsDir, dstDir, files, existing, answers)
  {
    if !dstIsDir {
      return false;
    }
    var i := 0;
    while i < |files|
      invariant 0 <= i <= |files|
      invariant forall j :: 0 <= j < i && PathJoin(dstDir, files[j]) !in existing ==> IsYes(answers[j])
    {
      if PathJoin(dstDir, files[i]) !in existing && !IsYes(answers[i]) {
        return false;
      }
      i := i + 1;
    }
    go := true;
  }

  /** The checks pass: the destination is a directory, and every file
      missing from it got a 'y' or 'Y'. */
  predicate Confirmed(dstIsDir: bool, dstDir: string, files: seq<string>, existing: set<string>, answers: seq<string>)
    requires |answers| == |files|
  {
    dstIsDir && forall i :: 0 <= i < |files| && PathJoin(dstDir, files[i]) !in existing ==> IsYes(answers[i])
  }

  /** No file is synchronised onto itself. */
  predicate DistinctTargets(srcDir: string, dstDir: string, files: seq<string>)
  {
    forall i :: 0 <= i < |files| ==> PathJoin(srcDir, files[i]) != PathJoin(dstDir, files[i])
  }

  /** The keys `sync` copies: in the source, not in the destination. */
  function Transfers<V>(dst: map<string, V>, src: map<string, V>): (keys: set<string>)
    ensures forall k :: k in keys <==> k in src && k !in dst
  {
    src.Keys - dst.Keys
  }

  /** The destination container after `sync`: its own records unchanged,
      plus a verbatim copy of every source record it lacked. */
  function Synced<V>(dst: map<string, V>, src: map<string, V>): (r: map<string, V>)
    ensures r.Keys == dst.Keys + src.Keys
    ensures forall k :: k in dst ==> r[k] == dst[k]
    ensures forall k :: k in Transfers(dst, src) ==> r[k] == src[k]
  {
    map k | k in dst.Keys + src.Keys :: if k in dst then dst[k] else src[k]
  }

  /** The result is the map union in which the destination wins. */
  lemma SyncedIsUnion<V>(dst: map<string, V>, src: map<string, V>)
    ensures Synced(dst, src) == src + dst
  {
  }

  /** A second synchronisation right after the first transfers nothing and
      changes nothing. */
  lemma SyncTwice<V>(dst: map<string, V>, src: map<string, V>)
    ensures Transfers(Synced(dst, src), src) == {}
    ensures Synced(Synced(dst, src), src) == Synced(dst, src)
  {
  }

  /** The destination part-way through the copy loop: its own records and
      those of `done` copied from the source. */
  ghost function Copied<V>(dst: map<string, V>, src: map<string, V>, done: seq<string>): map<string, V>
  {
    map k | k in dst.Keys + src.Keys && (k in dst || k in done) :: if k in dst then dst[k] else src[k]
  }

  lemma CopiedNothing<V>(dst: map<string, V>, src: map<string, V>)
    ensures Copied(dst, src, []) == dst
  {
  }

  lemma CopiedStep<V>(dst: map<string, V>, src: map<string, V>, done: seq<string>, key: string)
    requires key in src && key !in dst
    ensures Copied(dst, src, done)[key := src[key]] == Copied(dst, src, done + [key])
  {
  }

  lemma CopiedAll<V>(dst: map<string, V>, src: map<string, V>, keys: seq<string>)
    requires forall k :: k in keys <==> k in Transfers(dst, src)
    ensures Copied(dst, src, keys) == Synced(dst, src)
  {
  }

  /** The copy loop of `sync`: the destination container gets the
      source's value for each key of `keys`, the keys it lacks. */
  method CopyKeys<V>(dst: Recorder<V>, name: string, src: map<string, V>, keys: seq<string>)
    requires name in dst.root
    requires forall k :: k in keys <==> k in Transfers(dst.root[name], src)
    modifies dst`root
    ensures dst.root == old(dst.root)[name := Synced(old(dst.root[name]), src)]
  {
    ghost var d := dst.root[name];
    ghost var start := dst.root;
    CopiedNothing(d, src);
    var i := 0;
    while i < |keys|
      invariant i <= |keys|
      invariant dst.root == start[name := Copied(d, src, keys[..i])]
    {
      var key := keys[i];
      assert key in Transfers(d, src);
      CopiedStep(d, src, keys[..i], key);
      assert keys[..i + 1] == keys[..i] + [key];
      dst.root := dst.root[name := dst.root[name][key := src[key]]];
      i := i + 1;
    }
    assert keys[..i] == keys;
    CopiedAll(d, src, keys);
  }

  /** `sync` for one file: open both databases on the default container,
      copy the keys the destination lacks in key order, count them, and
      commit the destination. The source container is only read. */
  method SyncContainer<V>(src: Recorder<V>, dst: Recorder<V>) returns (count: nat)
    requires src != dst
    requires src.contName == DefaultContainer && dst.contName == DefaultContainer
    modifies src, dst
    ensures src.ConnectionKept() && src.ContainerReady(DefaultContainer)
    ensures dst.ConnectionKept()
    ensures var s := ContainerOf(old(src.root), DefaultContainer);
            var d := ContainerOf(old(dst.root), DefaultContainer);
            && dst.root == old(dst.root)[DefaultContainer := Synced(d, s)]
            && count == |Transfers(d, s)|
    ensures dst.committed == dst.root
  {
    var srcName := src.OpenDb(None);
    count := CopyMissing(src.root[srcName], dst);
  }

  /** The destination side of `sync`: open the database on the default
      container, copy the records of `s` it lacks in key order, count
      them, and commit. */
  method CopyMissing<V>(s: map<string, V>, dst: Recorder<V>) returns (count: nat)
    requires dst.contName == DefaultContainer
    modifies dst
    ensures dst.ConnectionKept()
    ensures var d := ContainerOf(old(dst.root), DefaultContainer);
            && dst.root == old(dst.root)[DefaultContainer := Synced(d, s)]
            && count == |Transfers(d, s)|
    ensures dst.committed == dst.root
  {
    ghost var before := dst.root;
    var dstName := dst.OpenDb(None);
    ghost var d := dst.root[dstName];
    assert dst.root == before[DefaultContainer := d];
    count := CopyAndCommit(dst, dstName, s);
    UpdateTwice(before, DefaultContainer, d, Synced(d, s));
  }

  /** The copy in key order, the count and the commit, on an open
      container `name`. */
  method CopyAndCommit<V>(dst: Recorder<V>, name: string, s: map<string, V>) returns (count: nat)
    requires name in dst.root
    modifies dst`root, dst`committed
    ensures dst.root == old(dst.root)[name := Synced(old(dst.root[name]), s)]
    ensures count == |Transfers(old(dst.root[name]), s)|
    ensures dst.committed == dst.root
  {
    var keys := SortKeys(Transfers(dst.root[name], s), ByName);
    CopyKeys(dst, name, s, keys);
    count := |keys|;
    dst.Persist();
  }

  /** A database file once `sync` has opened it: its default container
      exists. */
  function Opened<V>(root: Root<V>): (r: Root<V>)
    ensures r.Keys == root.Keys + {DefaultContainer}
    ensures forall c :: c in root ==> r[c] == root[c]
  {
    root[DefaultContainer := ContainerOf(root, DefaultContainer)]
  }

  /** Opening a database whose default container exists changes nothing. */
  lemma OpenedExisting<V>(root: Root<V>)
    requires DefaultContainer in root
    ensures Opened(root) == root
  {
  }

  /** The disk after `sync` has handled the file at `srcPath` and its
      counterpart at `dstPath`. */
  function SyncStep<V>(disk: Disk<V>, srcPath: string, dstPath: string): (r: Disk<V>)
    ensures r.Keys == disk.Keys + {srcPath, dstPath}
    ensures forall p :: p in disk && p != srcPath && p != dstPath ==> r[p] == disk[p]
    ensures srcPath != dstPath ==>
              ContainerOf(r[srcPath], DefaultContainer) == ContainerOf(Stored(disk, srcPath), DefaultContainer)
    ensures ContainerOf(r[dstPath], DefaultContainer) ==
              Synced(ContainerOf(Stored(disk, dstPath), DefaultContainer), ContainerOf(Stored(disk, srcPath), DefaultContainer))
  {
    var s := Stored(disk, srcPath);
    var d := Stored(disk, dstPath);
    disk[srcPath := Opened(s)][dstPath := d[DefaultContainer := Synced(ContainerOf(d, DefaultContainer), ContainerOf(s, DefaultContainer))]]
  }

  /** How many records `sync` reports for one file. */
  function StepCount<V>(disk: Disk<V>, srcPath: string, dstPath: string): nat
  {
    |Transfers(ContainerOf(Stored(disk, dstPath), DefaultContainer), ContainerOf(Stored(disk, srcPath), DefaultContainer))|
  }

  /** The disk after `sync` has handled `files` in order. */
  function SyncAll<V>(disk: Disk<V>, srcDir: string, dstDir: string, files: seq<string>): Disk<V>
  {
    if |files| == 0 then disk
    else
      var last := files[|files| - 1];
      SyncStep(SyncAll(disk, srcDir, dstDir, files[..|files| - 1]), PathJoin(srcDir, last), PathJoin(dstDir, last))
  }

  /** One file of `sync`: a fresh recorder on each database, the copy,
      and the new disk contents. */
  method SyncFile<V>(srcPath: string, dstPath: string, disk: Disk<V>) returns (result: Disk<V>, count: nat)
    requires srcPath != dstPath
    ensures result == SyncStep(disk, srcPath, dstPath)
    ensures count == StepCount(disk, srcPath, dstPath)
  {
    var s := Stored(disk, srcPath);
    var d := Stored(disk, dstPath);
    var src := new Recorder(srcPath, s, None);
    var dst := new Recorder(dstPath, d, None);
    count := SyncContainer(src, dst);
    if DefaultContainer in s {
      OpenedExisting(s);
    }
    StepWrites(disk, srcPath, dstPath, src.committed, dst.committed);
    result := disk[srcPath := src.committed][dstPath := dst.committed];
  }

  /** The two databases as `sync` leaves them make up SyncStep. */
  lemma StepWrites<V>(disk: Disk<V>, srcPath: string, dstPath: string, srcRoot: Root<V>, dstRoot: Root<V>)
    requires srcRoot == Opened(Stored(disk, srcPath))
    requires var d := Stored(disk, dstPath);
             dstRoot == d[DefaultContainer := Synced(ContainerOf(d, DefaultContainer),
                                                     ContainerOf(Stored(disk, srcPath), DefaultContainer))]
    ensures disk[srcPath := srcRoot][dstPath := dstRoot] == SyncStep(disk, srcPath, dstPath)
  {
  }

  /** The counts `sync` reports, file by file. */
  function SyncCounts<V>(disk: Disk<V>, srcDir: string, dstDir: string, files: seq<string>): (counts: seq<nat>)
    ensures |counts| == |files|
  {
    if |files| == 0 then []
    else
      var init := files[..|files| - 1];
      var last := files[|files| - 1];
      SyncCounts(disk, srcDir, dstDir, init) + [StepCount(SyncAll(disk, srcDir, dstDir, init), PathJoin(srcDir, last), PathJoin(dstDir, last))]
  }

  lemma WholePrefix(files: seq<string>)
    ensures files[..|files|] == files
  {
  }

  lemma PrefixStep(files: seq<string>, i: nat)
    requires i < |files|
    ensures files[..i + 1][..i] == files[..i] && files[..i + 1][i] == files[i]
  {
  }

  /** `sync`: for each file, a fresh recorder on the source and on the
      destination database, the copy of the missing records, and the count
      of records transferred. */
  method SyncAllFiles<V>(srcDir: string, dstDir: string, files: seq<string>, disk: Disk<V>)
    returns (result: Disk<V>, counts: seq<nat>)
    requires DistinctTargets(srcDir, dstDir, files)
    ensures result == SyncAll(disk, srcDir, dstDir, files)
    ensures counts == SyncCounts(disk, srcDir, dstDir, files)
  {
    result := disk;
    counts := [];
    var i := 0;
    while i < |files|
      invariant i <= |files|
      invariant result == SyncAll(disk, srcDir, dstDir, files[..i])
      invariant counts == SyncCounts(disk, srcDir, dstDir, files[..i])
    {
      var srcPath := PathJoin(srcDir, files[i]);
      var dstPath := PathJoin(dstDir, files[i]);
      var count;
      PrefixStep(files, i);
      result, count := SyncFile(srcPath, dstPath, result);
      counts := counts + [count];
      i := i + 1;
    }
    WholePrefix(files);
  }

  /** `Synchronizer(config, dstdir)`: the checks, then, only if they all
      pass, `sync`. */
  method Synchronize<V>(config: Config, dstDir: string, dstIsDir: bool, existing: set<string>,
                        answers: seq<string>, disk: Disk<V>)
    returns (result: Disk<V>, counts: seq<nat>)
    requires |answers| == 3
    requires DistinctTargets(config.baseDir, dstDir, SyncFiles(config))
    ensures var files := SyncFiles(config);
            if Confirmed(dstIsDir, dstDir, files, existing, answers)
            then result == SyncAll(disk, config.baseDir, dstDir, files)
                 && counts == SyncCounts(disk, config.baseDir, dstDir, files) && |counts| == 3
            else result == disk && counts == []
  {
    var files := SyncFiles(config);
    var go := Confirm(dstIsDir, dstDir, files, existing, answers);
    if !go {
      return disk, [];
    }
    result, counts := SyncAllFiles(config.baseDir, dstDir, files, disk);
  }
}
