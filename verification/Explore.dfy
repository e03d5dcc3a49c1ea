/**
 The walk over a directory tree (internal/treewalker/treewalker.go): which lists of files become tasks.
 */
module Explore {
  import opened Prelude

  // A directory's entries are taken in the order the walk sorts them into (NaturalOrder.dfy).  Sending on
  // a channel is appending to what was sent.

  type Path = seq<string>
  type Task = seq<Path>

  datatype Entry = Folder(name: string, dir: Directory) | Regular(name: string) | Special(name: string)

  datatype Directory = Unreadable | Listed(entries: seq<Entry>)

  function EndsWith(s: string, suffix: string): bool {
    |suffix| <= |s| && s[|s| - |suffix|..] == suffix
  }

  predicate Relevant(e: Entry) {
    e.Regular? && (EndsWith(e.name, ".sinq") || EndsWith(e.name, ".scenario"))
  }

  /** The request and configuration files among a directory's entries, as paths. */
  function OwnFiles(path: Path, entries: seq<Entry>): seq<Path> {
    if entries == [] then []
    else (if Relevant(entries[0]) then [path + [entries[0].name]] else []) + OwnFiles(path, entries[1..])
  }

  function Folders(entries: seq<Entry>): (fs: seq<Entry>)
    ensures forall f :: f in fs ==> f.Folder? && f in entries
  {
    if entries == [] then []
    else (if entries[0].Folder? then [entries[0]] else []) + Folders(entries[1..])
  }

  /** The tasks a directory gives rise to when the files `above` come first in each. */
  function Tasks(path: Path, dir: Directory, above: Task): seq<Task>
    decreases dir, 1
  {
    match dir
    case Unreadable => []
    case Listed(entries) =>
      var files := above + OwnFiles(path, entries);
      if Folders(entries) == [] then (if |files| != |above| then [files] else [])
      else TasksBelow(path, dir, Folders(entries), files)
  }

  function TasksBelow(path: Path, dir: Directory, folders: seq<Entry>, above: Task): seq<Task>
    requires dir.Listed? && forall f :: f in folders ==> f.Folder? && f in dir.entries
    decreases dir, 0, |folders|
  {
    if folders == [] then []
    else Tasks(path + [folders[0].name], folders[0].dir, above) + TasksBelow(path, dir, folders[1..], above)
  }

  /** The directories that cannot be read, each reported once. */
  function ReadErrors(path: Path, dir: Directory): seq<Path>
    decreases dir, 1
  {
    match dir
    case Unreadable => [path]
    case Listed(entries) => ErrorsBelow(path, dir, Folders(entries))
  }

  function ErrorsBelow(path: Path, dir: Directory, folders: seq<Entry>): seq<Path>
    requires dir.Listed? && forall f :: f in folders ==> f.Folder? && f in dir.entries
    decreases dir, 0, |folders|
  {
    if folders == [] then []
    else ReadErrors(path + [folders[0].name], folders[0].dir) + ErrorsBelow(path, dir, folders[1..])
  }

  lemma {:induction false} OneMoreFile(path: Path, entries: seq<Entry>, e: Entry)
    ensures OwnFiles(path, entries + [e]) == OwnFiles(path, entries) + (if Relevant(e) then [path + [e.name]] else [])
  {
    if entries != [] {
      assert (entries + [e])[1..] == entries[1..] + [e];
      OneMoreFile(path, entries[1..], e);
    }
  }

  lemma {:induction false} OneMoreFolder(entries: seq<Entry>, e: Entry)
    ensures Folders(entries + [e]) == Folders(entries) + (if e.Folder? then [e] else [])
  {
    if entries != [] {
      assert (entries + [e])[1..] == entries[1..] + [e];
      OneMoreFolder(entries[1..], e);
    }
  }

  lemma Assoc<T>(a: seq<T>, b: seq<T>, c: seq<T>)
    ensures (a + b) + c == a + (b + c)
  {
  }

  /** The walk, with what it sent so far on its two channels. */
  class Walk {
    var taskCh: seq<Task>
    var errorCh: seq<Path>

    constructor ()
      ensures taskCh == [] && errorCh == []
    {
      taskCh, errorCh := [], [];
    }

    /** Sorts a directory's entries out: files go to the end of the task, folders are for later. */
    method SortOut(path: Path, entries: seq<Entry>, toPrepend: Task) returns (files: Task, dirs: seq<Entry>)
      ensures files == toPrepend + OwnFiles(path, entries) && dirs == Folders(entries)
    {
      files, dirs := toPrepend, [];
      for i := 0 to |entries|
        invariant files == toPrepend + OwnFiles(path, entries[..i]) && dirs == Folders(entries[..i])
      {
        var entry := entries[i];
        OneMoreFile(path, entries[..i], entry);
        OneMoreFolder(entries[..i], entry);
        assert entries[..i + 1] == entries[..i] + [entry];
        if entry.Folder? {
          dirs := dirs + [entry];
        } else if Relevant(entry) {
          files := files + [path + [entry.name]];
        }
      }
      assert entries[..|entries|] == entries;
    }

    method ExploreFS(path: Path, dir: Directory, toPrepend: Task)
      modifies this
      ensures taskCh == old(taskCh) + Tasks(path, dir, toPrepend)
      ensures errorCh == old(errorCh) + ReadErrors(path, dir)
      decreases dir
    {
      if dir.Unreadable? {
        errorCh := errorCh + [path];
        return;
      }
      var files, dirs := SortOut(path, dir.entries, toPrepend);
      if |dirs| == 0 {
        if |files| != |toPrepend| {
          taskCh := taskCh + [files];
        }
        return;
      }
      ghost var tasks, errors := TasksBelow(path, dir, dirs, files), ErrorsBelow(path, dir, dirs);
      assert dirs[0..] == dirs;
      for i := 0 to |dirs|
        invariant taskCh + TasksBelow(path, dir, dirs[i..], files) == old(taskCh) + tasks
        invariant errorCh + ErrorsBelow(path, dir, dirs[i..]) == old(errorCh) + errors
      {
        assert dirs[i] in dirs && dirs[i..][1..] == dirs[i + 1..];
        ghost var sub, subdir := path + [dirs[i].name], dirs[i].dir;
        Assoc(taskCh, Tasks(sub, subdir, files), TasksBelow(path, dir, dirs[i + 1..], files));
        Assoc(errorCh, ReadErrors(sub, subdir), ErrorsBelow(path, dir, dirs[i + 1..]));
        ExploreFS(path + [dirs[i].name], dirs[i].dir, files);
      }
    }
  }

  // ----- one task for every leaf -----

  /** The ways down to the directories without subdirectories that have files of their own, as folder numbers. */
  function Leaves(dir: Directory): seq<seq<nat>>
    decreases dir, 1
  {
    match dir
    case Unreadable => []
    case Listed(entries) =>
      if Folders(entries) == [] then (if OwnFiles([], entries) != [] then [[]] else [])
      else LeavesBelow(dir, Folders(entries), 0)
  }

  function Extend(i: nat, ways: seq<seq<nat>>): (r: seq<seq<nat>>)
    ensures |r| == |ways| && forall k :: 0 <= k < |r| ==> r[k] == [i] + ways[k]
  {
    seq(|ways|, k requires 0 <= k < |ways| => [i] + ways[k])
  }

  function LeavesBelow(dir: Directory, folders: seq<Entry>, i: nat): seq<seq<nat>>
    requires dir.Listed? && i <= |folders| && forall f :: f in folders ==> f.Folder? && f in dir.entries
    decreases dir, 0, |folders| - i
  {
    if i == |folders| then []
    else Extend(i, Leaves(folders[i].dir)) + LeavesBelow(dir, folders, i + 1)
  }

  /** Following these folder numbers leads to a directory without subdirectories that has a file of its own. */
  ghost predicate IsLeafWay(dir: Directory, way: seq<nat>)
    decreases |way|
  {
    dir.Listed? &&
    var folders := Folders(dir.entries);
    if way == [] then folders == [] && exists e :: e in dir.entries && Relevant(e)
    else way[0] < |folders| && IsLeafWay(folders[way[0]].dir, way[1..])
  }

  lemma {:induction false} SomeOwnFileIff(entries: seq<Entry>)
    ensures OwnFiles([], entries) != [] <==> exists e :: e in entries && Relevant(e)
  {
    if entries != [] {
      SomeOwnFileIff(entries[1..]);
      assert entries[0] in entries && forall e :: e in entries <==> e == entries[0] || e in entries[1..];
    }
  }

  /** No leaf is left out, and nothing else is a leaf. */
  lemma {:induction false} LeafIff(dir: Directory, way: seq<nat>)
    ensures way in Leaves(dir) <==> IsLeafWay(dir, way)
    decreases dir, 1
  {
    if dir.Listed? {
      SomeOwnFileIff(dir.entries);
      if Folders(dir.entries) != [] {
        LeafBelowIff(dir, Folders(dir.entries), 0, way);
      }
    }
  }

  lemma InExtended(i: nat, ways: seq<seq<nat>>, way: seq<nat>)
    ensures way in Extend(i, ways) <==> way != [] && way[0] == i && way[1..] in ways
  {
    if way in Extend(i, ways) {
      var k :| 0 <= k < |ways| && Extend(i, ways)[k] == way;
      assert way == [i] + ways[k] && way[1..] == ways[k];
    }
    if way != [] && way[0] == i && way[1..] in ways {
      var k :| 0 <= k < |ways| && ways[k] == way[1..];
      assert Extend(i, ways)[k] == way;
    }
  }

  lemma {:induction false} LeafBelowIff(dir: Directory, folders: seq<Entry>, i: nat, way: seq<nat>)
    requires dir.Listed? && i <= |folders| && forall f :: f in folders ==> f.Folder? && f in dir.entries
    ensures way in LeavesBelow(dir, folders, i) <==>
      way != [] && i <= way[0] < |folders| && IsLeafWay(folders[way[0]].dir, way[1..])
    decreases dir, 0, |folders| - i
  {
    if i < |folders| {
      assert folders[i] in folders;
      LeafBelowIff(dir, folders, i + 1, way);
      InExtended(i, Leaves(folders[i].dir), way);
      if way != [] {
        LeafIff(folders[i].dir, way[1..]);
      }
    }
  }

  /** And no leaf is there twice. */
  lemma {:induction false} LeavesDiffer(dir: Directory)
    ensures Distinct(Leaves(dir))
    decreases dir, 1
  {
    if dir.Listed? && Folders(dir.entries) != [] {
      LeavesBelowDiffer(dir, Folders(dir.entries), 0);
    }
  }

  lemma ExtendedDiffer(i: nat, ways: seq<seq<nat>>)
    requires Distinct(ways)
    ensures Distinct(Extend(i, ways))
  {
    forall j, k | 0 <= j < k < |ways|
      ensures [i] + ways[j] != [i] + ways[k]
    {
      assert ([i] + ways[j])[1..] == ways[j] && ([i] + ways[k])[1..] == ways[k];
    }
  }

  lemma BothDiffer<T>(a: seq<T>, b: seq<T>)
    requires Distinct(a) && Distinct(b) && forall x :: x in a ==> x !in b
    ensures Distinct(a + b)
  {
    forall i, j | 0 <= i < j < |a + b|
      ensures (a + b)[i] != (a + b)[j]
    {
      if i < |a| <= j {
        assert a[i] in a && b[j - |a|] in b;
      }
    }
  }

  lemma {:induction false} LeavesBelowDiffer(dir: Directory, folders: seq<Entry>, i: nat)
    requires dir.Listed? && i <= |folders| && forall f :: f in folders ==> f.Folder? && f in dir.entries
    ensures Distinct(LeavesBelow(dir, folders, i))
    decreases dir, 0, |folders| - i
  {
    if i < |folders| {
      assert folders[i] in folders;
      var here, later := Extend(i, Leaves(folders[i].dir)), LeavesBelow(dir, folders, i + 1);
      LeavesDiffer(folders[i].dir);
      ExtendedDiffer(i, Leaves(folders[i].dir));
      LeavesBelowDiffer(dir, folders, i + 1);
      forall way | way in here
        ensures way !in later
      {
        LeafBelowIff(dir, folders, i + 1, way);
        InExtended(i, Leaves(folders[i].dir), way);
      }
      BothDiffer(here, later);
    }
  }

  /** The files met on a way down: those of each directory in turn, none of any other. */
  function FilesOn(path: Path, dir: Directory, way: seq<nat>): Task
    decreases |way|
  {
    if dir.Unreadable? then []
    else
      OwnFiles(path, dir.entries)
      + (if way == [] || way[0] >= |Folders(dir.entries)| then []
         else var f := Folders(dir.entries)[way[0]]; FilesOn(path + [f.name], f.dir, way[1..]))
  }

  lemma {:induction false} OwnFilesCount(path: Path, other: Path, entries: seq<Entry>)
    ensures |OwnFiles(path, entries)| == |OwnFiles(other, entries)|
  {
    if entries != [] {
      OwnFilesCount(path, other, entries[1..]);
    }
  }

  /** Each task lists what is above and then the files on its way. */
  predicate PairUp(path: Path, dir: Directory, above: Task, tasks: seq<Task>, ways: seq<seq<nat>>) {
    |tasks| == |ways| && forall k :: 0 <= k < |tasks| ==> tasks[k] == above + FilesOn(path, dir, ways[k])
  }

  /** There is exactly one task for every leaf, in order, and it lists the files on the way to it. */
  lemma {:induction false} OneTaskPerLeaf(path: Path, dir: Directory, above: Task)
    ensures PairUp(path, dir, above, Tasks(path, dir, above), Leaves(dir))
    decreases dir, 1
  {
    if dir.Listed? {
      OwnFilesCount(path, [], dir.entries);
      if Folders(dir.entries) != [] {
        OneTaskPerLeafBelow(path, dir, 0, above);
      }
    }
  }

  lemma {:induction false} PairUpBoth(
    path: Path, dir: Directory, above: Task, ts: seq<Task>, ws: seq<seq<nat>>, ts': seq<Task>, ws': seq<seq<nat>>)
    requires PairUp(path, dir, above, ts, ws) && PairUp(path, dir, above, ts', ws')
    ensures PairUp(path, dir, above, ts + ts', ws + ws')
  {
    forall k | 0 <= k < |ts + ts'|
      ensures (ts + ts')[k] == above + FilesOn(path, dir, (ws + ws')[k])
    {
      if k < |ts| {
        assert (ts + ts')[k] == ts[k] && (ws + ws')[k] == ws[k];
      } else {
        assert (ts + ts')[k] == ts'[k - |ts|] && (ws + ws')[k] == ws'[k - |ts|];
      }
    }
  }

  lemma StepDown(path: Path, dir: Directory, i: nat, way: seq<nat>)
    requires dir.Listed? && i < |Folders(dir.entries)|
    ensures var f := Folders(dir.entries)[i];
      FilesOn(path, dir, [i] + way) == OwnFiles(path, dir.entries) + FilesOn(path + [f.name], f.dir, way)
  {
    assert ([i] + way)[1..] == way;
  }

  lemma PairUpBelow(path: Path, dir: Directory, i: nat, above: Task, ts: seq<Task>, ws: seq<seq<nat>>)
    requires dir.Listed? && i < |Folders(dir.entries)|
    requires var f := Folders(dir.entries)[i];
      PairUp(path + [f.name], f.dir, above + OwnFiles(path, dir.entries), ts, ws)
    ensures PairUp(path, dir, above, ts, Extend(i, ws))
  {
    var f := Folders(dir.entries)[i];
    forall k | 0 <= k < |ts|
      ensures ts[k] == above + FilesOn(path, dir, [i] + ws[k])
    {
      StepDown(path, dir, i, ws[k]);
      Assoc(above, OwnFiles(path, dir.entries), FilesOn(path + [f.name], f.dir, ws[k]));
    }
  }

  lemma {:induction false} OneTaskPerLeafBelow(path: Path, dir: Directory, i: nat, above: Task)
    requires dir.Listed? && i <= |Folders(dir.entries)|
    ensures var folders := Folders(dir.entries);
      PairUp(path, dir, above, TasksBelow(path, dir, folders[i..], above + OwnFiles(path, dir.entries)),
             LeavesBelow(dir, folders, i))
    decreases dir, 0, |Folders(dir.entries)| - i
  {
    var folders := Folders(dir.entries);
    var files := above + OwnFiles(path, dir.entries);
    if i < |folders| {
      var f := folders[i];
      assert f in folders && f in dir.entries;
      OneTaskPerLeaf(path + [f.name], f.dir, files);
      OneTaskPerLeafBelow(path, dir, i + 1, above);
      assert folders[i..][1..] == folders[i + 1..];
      PairUpBelow(path, dir, i, above, Tasks(path + [f.name], f.dir, files), Leaves(f.dir));
      PairUpBoth(path, dir, above, Tasks(path + [f.name], f.dir, files), Extend(i, Leaves(f.dir)),
                 TasksBelow(path, dir, folders[i + 1..], files), LeavesBelow(dir, folders, i + 1));
    }
  }

  // ----- a file determines everything before it -----

  /** No directory holds two entries of the same name. */
  ghost predicate NamesDiffer(dir: Directory)
    decreases dir
  {
    dir.Listed? ==>
      && (forall i, j :: 0 <= i < j < |dir.entries| ==> dir.entries[i].name != dir.entries[j].name)
      && (forall e :: e in dir.entries && e.Folder? ==> NamesDiffer(e.dir))
  }

  function IndexOf(files: seq<Path>, f: Path): (i: nat)
    ensures i <= |files|
    ensures i < |files| <==> f in files
    ensures i < |files| ==> files[i] == f
  {
    if files == [] || files[0] == f then 0 else 1 + IndexOf(files[1..], f)
  }

  function FolderNamed(folders: seq<Entry>, name: string): (r: Option<Entry>)
    ensures r.Some? ==> r.value in folders && r.value.name == name
    ensures r.None? ==> forall f :: f in folders ==> f.name != name
  {
    if folders == [] then None
    else if folders[0].name == name then Some(folders[0])
    else FolderNamed(folders[1..], name)
  }

  /** What comes before the file `f` in any task: the files above it and its elder siblings. */
  function Before(path: Path, dir: Directory, above: Task, f: Path): Task
    decreases dir
  {
    match dir
    case Unreadable => above
    case Listed(entries) =>
      var own := OwnFiles(path, entries);
      if f in own then above + own[..IndexOf(own, f)]
      else if |f| <= |path| then above
      else
        match FolderNamed(Folders(entries), f[|path|])
        case None => above
        case Some(folder) =>
          Before(path + [folder.name], folder.dir, above + own, f)
  }

  lemma {:induction false} OwnFilesLieHere(path: Path, entries: seq<Entry>)
    ensures forall f :: f in OwnFiles(path, entries) ==> path <= f && |f| == |path| + 1
    ensures forall f :: f in OwnFiles(path, entries) ==> exists e :: e in entries && f == path + [e.name]
  {
    if entries != [] {
      OwnFilesLieHere(path, entries[1..]);
      forall f | f in OwnFiles(path, entries)
        ensures path <= f && |f| == |path| + 1 && exists e :: e in entries && f == path + [e.name]
      {
        if f in OwnFiles(path, entries[1..]) {
          var e :| e in entries[1..] && f == path + [e.name];
          assert e in entries;
        } else {
          assert f == path + [entries[0].name];
        }
      }
    }
  }

  lemma FirstDiffers(first: Path, rest: seq<Path>)
    requires Distinct(rest) && forall f :: f in rest ==> f != first
    ensures Distinct([first] + rest)
  {
    var all := [first] + rest;
    forall i, j | 0 <= i < j < |all|
      ensures all[i] != all[j]
    {
      assert all[j] == rest[j - 1] && rest[j - 1] in rest;
    }
  }

  lemma {:induction false} OwnFilesDiffer(path: Path, entries: seq<Entry>)
    requires forall i, j :: 0 <= i < j < |entries| ==> entries[i].name != entries[j].name
    ensures Distinct(OwnFiles(path, entries))
  {
    if entries != [] {
      var rest := OwnFiles(path, entries[1..]);
      OwnFilesDiffer(path, entries[1..]);
      OwnFilesLieHere(path, entries[1..]);
      forall f | f in rest
        ensures f != path + [entries[0].name]
      {
        var e :| e in entries[1..] && f == path + [e.name];
        assert f[|path|] == e.name;
      }
      FirstDiffers(path + [entries[0].name], rest);
    }
  }

  lemma {:induction false} IndexOfAt(files: seq<Path>, i: nat)
    requires i < |files| && Distinct(files)
    ensures IndexOf(files, files[i]) == i
  {
    if i > 0 {
      assert files[0] != files[i];
      IndexOfAt(files[1..], i - 1);
    }
  }

  /** A task below a directory is a task of one of its folders. */
  lemma {:induction false} FromOneFolder(
    path: Path, dir: Directory, folders: seq<Entry>, above: Task, t: Task) returns (f: Entry)
    requires dir.Listed? && (forall f :: f in folders ==> f.Folder? && f in dir.entries)
    requires t in TasksBelow(path, dir, folders, above)
    ensures f in folders && t in Tasks(path + [f.name], f.dir, above)
    decreases |folders|
  {
    f := folders[0];
    if t !in Tasks(path + [f.name], f.dir, above) {
      f := FromOneFolder(path, dir, folders[1..], above, t);
    }
  }

  /** Every task begins with what is above. */
  lemma {:induction false} TasksBeginAbove(path: Path, dir: Directory, above: Task, t: Task)
    requires t in Tasks(path, dir, above)
    ensures above <= t
    decreases dir
  {
    if Folders(dir.entries) != [] {
      var files := above + OwnFiles(path, dir.entries);
      var f := FromOneFolder(path, dir, Folders(dir.entries), files, t);
      assert f in dir.entries;
      TasksBeginAbove(path + [f.name], f.dir, files, t);
    }
  }

  lemma SameNameSameFolder(entries: seq<Entry>, f: Entry)
    requires forall i, j :: 0 <= i < j < |entries| ==> entries[i].name != entries[j].name
    requires f in Folders(entries)
    ensures FolderNamed(Folders(entries), f.name) == Some(f)
  {
    var g := FolderNamed(Folders(entries), f.name).value;
    assert f in entries && g in entries;
    var i :| 0 <= i < |entries| && entries[i] == f;
    var j :| 0 <= j < |entries| && entries[j] == g;
  }

  lemma BeforeHere(path: Path, dir: Directory, above: Task, k: nat)
    requires dir.Listed? && NamesDiffer(dir) && k < |OwnFiles(path, dir.entries)|
    ensures var own := OwnFiles(path, dir.entries);
      && path <= own[k] && |own[k]| > |path|
      && Before(path, dir, above, own[k]) == (above + own)[..|above| + k]
  {
    var own := OwnFiles(path, dir.entries);
    OwnFilesLieHere(path, dir.entries);
    OwnFilesDiffer(path, dir.entries);
    assert own[k] in own;
    IndexOfAt(own, k);
  }

  lemma {:induction false} BeforeBelow(path: Path, dir: Directory, above: Task, folder: Entry, f: Path)
    requires dir.Listed? && NamesDiffer(dir) && folder in Folders(dir.entries)
    requires path + [folder.name] <= f && |f| > |path| + 1
    ensures path <= f
    ensures Before(path, dir, above, f)
         == Before(path + [folder.name], folder.dir, above + OwnFiles(path, dir.entries), f)
  {
    assert f[|path|] == (path + [folder.name])[|path|];
    OwnFilesLieHere(path, dir.entries);
    SameNameSameFolder(dir.entries, folder);
  }

  /**
   Whatever task a file turns up in, the files before it are the same.  This is what lets the workers
   keep an accumulated configuration under the name of the file it was accumulated up to.
   */
  lemma {:induction false} PrefixDetermined(path: Path, dir: Directory, above: Task, t: Task, i: nat)
    requires NamesDiffer(dir) && t in Tasks(path, dir, above) && |above| <= i < |t|
    ensures path <= t[i] && |t[i]| > |path|
    ensures t[..i] == Before(path, dir, above, t[i])
    decreases dir
  {
    var files := above + OwnFiles(path, dir.entries);
    if Folders(dir.entries) != [] {
      var f := FromOneFolder(path, dir, Folders(dir.entries), files, t);
      assert f in dir.entries;
      TasksBeginAbove(path + [f.name], f.dir, files, t);
      if i >= |files| {
        PrefixDetermined(path + [f.name], f.dir, files, t, i);
        BeforeBelow(path, dir, above, f, t[i]);
        return;
      }
    }
    BeforeHere(path, dir, above, i - |above|);
    assert t[i] == files[i] && t[..i] == files[..i];
  }
}
