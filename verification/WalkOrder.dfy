/** The order a walk finds files in (internal/treewalker/treewalker.go). */
module WalkOrder {
  import opened Explore
  import opened NaturalOrder

  datatype Kind = Readable | Closed | File | Other

  /** The names lead down from the directory to something of this kind. */
  ghost predicate At(d: Directory, names: seq<string>, kind: Kind)
    decreases |names|, 0
  {
    if names == [] then kind == if d.Unreadable? then Closed else Readable
    else d.Listed? && exists x :: x in d.entries && x.name == names[0] && EntryAt(x, names[1..], kind)
  }

  ghost predicate EntryAt(x: Entry, names: seq<string>, kind: Kind)
    decreases |names|, 1
  {
    match x
    case Folder(_, dir) => At(dir, names, kind)
    case Regular(_) => names == [] && kind == File
    case Special(_) => names == [] && kind == Other
  }

  /** Two listings of one tree: the same things are at the same places, in whatever order. */
  ghost predicate SameTree(d: Directory, e: Directory) {
    forall names, kind :: At(d, names, kind) <==> At(e, names, kind)
  }

  function Names(entries: seq<Entry>): seq<string> {
    seq(|entries|, i requires 0 <= i < |entries| => entries[i].name)
  }

  /** Each directory's entries are sorted by name, and the names are ones on which the order is total. */
  ghost predicate InNaturalOrder(d: Directory)
    decreases d
  {
    d.Listed? ==>
      && Sorted(Names(d.entries)) && (forall x :: x in d.entries ==> Ordinary(x.name))
      && forall x :: x in d.entries && x.Folder? ==> InNaturalOrder(x.dir)
  }

  function KindOf(x: Entry): Kind {
    match x
    case Folder(_, Unreadable) => Closed
    case Folder(_, Listed(_)) => Readable
    case Regular(_) => File
    case Special(_) => Other
  }

  lemma OneOfTheName(d: Directory, i: nat, names: seq<string>, kind: Kind)
    requires d.Listed? && i < |d.entries| && Sorted(Names(d.entries))
    ensures At(d, [d.entries[i].name] + names, kind) <==> EntryAt(d.entries[i], names, kind)
  {
    var way := [d.entries[i].name] + names;
    assert way[1..] == names;
    if At(d, way, kind) {
      var x :| x in d.entries && x.name == way[0] && EntryAt(x, way[1..], kind);
      var j :| 0 <= j < |d.entries| && d.entries[j] == x;
      assert Names(d.entries)[i] == Names(d.entries)[j];
    }
  }

  lemma NameIsThere(d: Directory, e: Directory, i: nat) returns (j: nat)
    requires d.Listed? && e.Listed? && SameTree(d, e) && i < |d.entries|
    ensures j < |e.entries| && e.entries[j].name == d.entries[i].name
  {
    var x := d.entries[i];
    assert EntryAt(x, [x.name][1..], KindOf(x));
    assert At(d, [x.name], KindOf(x));
    assert At(e, [x.name], KindOf(x));
    var y :| y in e.entries && y.name == x.name;
    j :| 0 <= j < |e.entries| && e.entries[j] == y;
  }

  lemma SameNames(d: Directory, e: Directory)
    requires d.Listed? && e.Listed? && SameTree(d, e) && InNaturalOrder(d) && InNaturalOrder(e)
    ensures Names(d.entries) == Names(e.entries)
  {
    var s, t := Names(d.entries), Names(e.entries);
    forall name | name in s
      ensures name in t
    {
      var i :| 0 <= i < |s| && s[i] == name;
      var j := NameIsThere(d, e, i);
      assert t[j] == name;
    }
    forall name | name in t
      ensures name in s
    {
      var i :| 0 <= i < |t| && t[i] == name;
      var j := NameIsThere(e, d, i);
      assert s[j] == name;
    }
    SortedOneWay(s, t);
  }

  lemma SameBelow(d: Directory, e: Directory, i: nat)
    requires d.Listed? && e.Listed? && SameTree(d, e) && Sorted(Names(d.entries))
      && Names(d.entries) == Names(e.entries)
    requires i < |d.entries| && i < |e.entries|
    ensures forall names, kind :: EntryAt(d.entries[i], names, kind) <==> EntryAt(e.entries[i], names, kind)
  {
    assert Names(d.entries)[i] == Names(e.entries)[i];
    forall names, kind
      ensures EntryAt(d.entries[i], names, kind) <==> EntryAt(e.entries[i], names, kind)
    {
      OneOfTheName(d, i, names, kind);
      OneOfTheName(e, i, names, kind);
    }
  }

  lemma SameKind(x: Entry, y: Entry)
    requires forall names, kind :: EntryAt(x, names, kind) <==> EntryAt(y, names, kind)
    ensures KindOf(x) == KindOf(y)
  {
    assert EntryAt(x, [], KindOf(x));
    assert EntryAt(y, [], KindOf(y));
  }

  lemma SameFolder(x: Entry, y: Entry)
    requires x.Folder? && forall names, kind :: EntryAt(x, names, kind) <==> EntryAt(y, names, kind)
    ensures y.Folder? && SameTree(x.dir, y.dir)
  {
    SameKind(x, y);
    forall names, kind
      ensures At(x.dir, names, kind) <==> At(y.dir, names, kind)
    {
      assert EntryAt(x, names, kind) <==> EntryAt(y, names, kind);
    }
  }

  /** Two sorted listings of one tree are the same. */
  lemma {:induction false} SortedListingsAgree(d: Directory, e: Directory)
    requires SameTree(d, e) && InNaturalOrder(d) && InNaturalOrder(e)
    ensures d == e
    decreases d
  {
    assert At(d, [], Readable) <==> At(e, [], Readable);
    if d.Listed? {
      SameNames(d, e);
      assert |d.entries| == |Names(d.entries)| == |Names(e.entries)| == |e.entries|;
      forall i | 0 <= i < |d.entries|
        ensures d.entries[i] == e.entries[i]
      {
        SameBelow(d, e, i);
        SameKind(d.entries[i], e.entries[i]);
        assert Names(d.entries)[i] == Names(e.entries)[i];
        if d.entries[i].Folder? {
          SameFolder(d.entries[i], e.entries[i]);
          assert e.entries[i] in e.entries;
          SortedListingsAgree(d.entries[i].dir, e.entries[i].dir);
        }
      }
    }
  }

  /**
   In whatever order the file system lists directories, once they are sorted the walk sends the same lists of
   files and the same errors in the same order.
   */
  lemma ListingOrderDoesNotShow(d: Directory, e: Directory, s: Directory, t: Directory, path: Path, above: Task)
    requires SameTree(d, e)
    requires SameTree(d, s) && InNaturalOrder(s) && SameTree(e, t) && InNaturalOrder(t)
    ensures Tasks(path, s, above) == Tasks(path, t, above) && ReadErrors(path, s) == ReadErrors(path, t)
  {
    SortedListingsAgree(s, t);
  }
}
