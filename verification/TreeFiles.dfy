/** Which files of a tree are read, and what is reported of it (internal/treewalker/treewalker.go). */
module TreeFiles {
  import opened Prelude
  import opened Explore
  import opened WalkOrder

  /** A regular file whose name ends in `.sinq` or `.scenario`. */
  ghost predicate IsRead(e: Entry) {
    e.Regular? && exists stem :: e.name == stem + ".sinq" || e.name == stem + ".scenario"
  }

  lemma EndsWithIff(s: string, suffix: string)
    ensures EndsWith(s, suffix) <==> exists stem :: s == stem + suffix
  {
    if EndsWith(s, suffix) {
      assert s == s[..|s| - |suffix|] + suffix;
    }
  }

  lemma RelevantIff(e: Entry)
    ensures Relevant(e) <==> IsRead(e)
  {
    EndsWithIff(e.name, ".sinq");
    EndsWithIff(e.name, ".scenario");
    if Relevant(e) && EndsWith(e.name, ".sinq") {
      var stem :| e.name == stem + ".sinq";
    } else if Relevant(e) {
      var stem :| e.name == stem + ".scenario";
    } else if IsRead(e) {
      var stem :| e.name == stem + ".sinq" || e.name == stem + ".scenario";
    }
  }

  /** A directory's own files are exactly these, each under the directory's path. */
  lemma {:induction false} OwnFilesIff(path: Path, entries: seq<Entry>, f: Path)
    ensures f in OwnFiles(path, entries) <==> exists e :: e in entries && IsRead(e) && f == path + [e.name]
    decreases |entries|
  {
    if entries != [] {
      var first := entries[0];
      RelevantIff(first);
      OwnFilesIff(path, entries[1..], f);
      assert forall e :: e in entries <==> e == first || e in entries[1..];
    }
  }

  /** They come in the order of the entries, and so do the folders. */
  lemma {:induction false} EntriesInOrder(path: Path, a: seq<Entry>, b: seq<Entry>)
    ensures OwnFiles(path, a + b) == OwnFiles(path, a) + OwnFiles(path, b)
    ensures Folders(a + b) == Folders(a) + Folders(b)
    decreases |b|
  {
    if b == [] {
      assert a + b == a;
    } else {
      var n := |b| - 1;
      assert a + b == (a + b[..n]) + [b[n]] && b == b[..n] + [b[n]];
      EntriesInOrder(path, a, b[..n]);
      OneMoreFile(path, a + b[..n], b[n]);
      OneMoreFile(path, b[..n], b[n]);
      OneMoreFolder(a + b[..n], b[n]);
      OneMoreFolder(b[..n], b[n]);
    }
  }

  lemma {:induction false} FoldersIff(entries: seq<Entry>, f: Entry)
    ensures f in Folders(entries) <==> f in entries && f.Folder?
    decreases |entries|
  {
    if entries != [] {
      FoldersIff(entries[1..], f);
      assert f in entries <==> f == entries[0] || f in entries[1..];
    }
  }

  // ----- what is reported -----

  /** A directory is reported exactly if its names lead to one that cannot be read. */
  lemma {:induction false} ErrorIff(path: Path, dir: Directory, names: Path)
    ensures path + names in ReadErrors(path, dir) <==> At(dir, names, Kind.Closed)
    decreases dir, 1
  {
    match dir
    case Unreadable =>
      assert path + [] == path && |path + names| == |path| + |names|;
    case Listed(entries) =>
      ErrorBelowIff(path, dir, Folders(entries), names);
      if At(dir, names, Kind.Closed) {
        var x :| x in entries && x.name == names[0] && EntryAt(x, names[1..], Kind.Closed);
        FoldersIff(entries, x);
      }
  }

  lemma {:induction false} ReportedBelow(path: Path, dir: Directory)
    ensures forall p :: p in ReadErrors(path, dir) ==> path <= p
    decreases dir, 1
  {
    if dir.Listed? {
      ReportedBelowFolders(path, dir, Folders(dir.entries));
    }
  }

  lemma NotReportedBelow(path: Path, name: string, dir: Directory, names: Path)
    requires names == [] || names[0] != name
    ensures path + names !in ReadErrors(path + [name], dir)
  {
    ReportedBelow(path + [name], dir);
    assert (path + [name])[|path|] == name;
    assert names != [] ==> (path + names)[|path|] == names[0];
  }

  lemma {:induction false} ErrorBelowIff(path: Path, dir: Directory, folders: seq<Entry>, names: Path)
    requires dir.Listed? && forall f :: f in folders ==> f.Folder? && f in dir.entries
    ensures path + names in ErrorsBelow(path, dir, folders) <==>
      exists f :: f in folders && names != [] && f.name == names[0] && At(f.dir, names[1..], Kind.Closed)
    decreases dir, 0, |folders|
  {
    if folders != [] {
      var f := folders[0];
      ErrorBelowIff(path, dir, folders[1..], names);
      assert forall g :: g in folders <==> g == f || g in folders[1..];
      var sub := path + [f.name];
      if names != [] && names[0] == f.name {
        assert path + names == sub + names[1..];
        ErrorIff(sub, f.dir, names[1..]);
      } else {
        NotReportedBelow(path, f.name, f.dir, names);
      }
    }
  }

  lemma {:induction false} ReportedBelowFolders(path: Path, dir: Directory, folders: seq<Entry>)
    requires dir.Listed? && forall f :: f in folders ==> f.Folder? && f in dir.entries
    ensures forall p :: p in ErrorsBelow(path, dir, folders) ==> path <= p
    decreases dir, 0, |folders|
  {
    if folders != [] {
      assert folders[0] in dir.entries;
      ReportedBelow(path + [folders[0].name], folders[0].dir);
      ReportedBelowFolders(path, dir, folders[1..]);
    }
  }
}
