/** When the order in which tables are iterated over shows in the text (internal/luapi/lua-json.go). */
module JsonOrder {
  import opened Prelude
  import opened LuaGraph
  import opened JsonSerializer
  import opened JsonWritable

  /** The same keys with the same values, perhaps in another order. */
  ghost predicate SameButForOrder(t: Table, u: Table) {
    t.len == u.len && t.asEmptyArray == u.asEmptyArray && multiset(t.entries) == multiset(u.entries)
  }

  ghost predicate SameButForOrders(h: Heap, g: Heap) {
    h.Keys == g.Keys && forall r :: r in h ==> SameButForOrder(h[r], g[r])
  }

  lemma SameEntries(t: Table, u: Table)
    requires SameButForOrder(t, u)
    ensures |t.entries| == |u.entries| && forall e :: e in t.entries <==> e in u.entries
  {
    assert |t.entries| == |multiset(t.entries)| == |multiset(u.entries)| == |u.entries|;
    forall e
      ensures e in t.entries <==> e in u.entries
    {
      assert e in multiset(t.entries) <==> e in multiset(u.entries);
    }
  }

  lemma SomeStill(t: Table, u: Table)
    requires forall e :: e in t.entries <==> e in u.entries
    ensures AnyOdd(t.entries) ==> AnyOdd(u.entries)
    ensures NumberVals(t.entries) != [] ==> NumberVals(u.entries) != []
    ensures StringVals(t.entries) != [] ==> StringVals(u.entries) != []
  {
    KindsOf(t.entries);
    KindsOf(u.entries);
    forall i | 0 <= i < |t.entries|
      ensures exists j :: 0 <= j < |u.entries| && u.entries[j].key == t.entries[i].key
    {
      assert t.entries[i] in u.entries;
    }
    if StringVals(t.entries) != [] {
      assert StringVals(t.entries)[0] in StringVals(t.entries);
    }
  }

  lemma SameFields(t: Table, u: Table)
    requires SameButForOrder(t, u)
    ensures forall x :: x in StringVals(t.entries) <==> x in StringVals(u.entries)
  {
    SameEntries(t, u);
    KindsOf(t.entries);
    KindsOf(u.entries);
  }

  /** Another order of the entries makes neither a list nor an object of what was none. */
  lemma OrderKeepsKind(t: Table, u: Table)
    requires SameButForOrder(t, u)
    ensures Classify(t).None? <==> Classify(u).None?
    ensures Classify(t).Some? ==>
      && (Classify(t).value.Items? <==> Classify(u).value.Items?)
      && (Classify(t).value.Fields? <==> Classify(u).value.Fields?)
  {
    SameEntries(t, u);
    SomeStill(t, u);
    SomeStill(u, t);
    if !AnyOdd(t.entries) && StringVals(t.entries) == [] {
      OnlyNumbers(t.entries);
      OnlyNumbers(u.entries);
    }
  }

  lemma SortedTheSame(s: seq<KeyVal>, t: seq<KeyVal>)
    requires DistinctKeys(s) && DistinctKeys(t) && forall x :: x in s <==> x in t
    ensures SortFields(s) == SortFields(t)
  {
    SortingAscends(s);
    SortingAscends(t);
    SortingHas(s);
    SortingHas(t);
    AscendingOneWay(SortFields(s), SortFields(t));
  }

  lemma SameKeysSorted(t: Table, u: Table)
    requires SameButForOrder(t, u) && Classify(t).Some? && Classify(t).value.Fields?
    requires DistinctKeys(StringVals(t.entries)) && DistinctKeys(StringVals(u.entries))
    ensures Classify(u).Some? && Classify(u).value.Fields?
    ensures SortFields(Classify(t).value.fields) == SortFields(Classify(u).value.fields)
  {
    OrderKeepsKind(t, u);
    SameFields(t, u);
    SortedTheSame(Classify(t).value.fields, Classify(u).value.fields);
  }

  // ----- unfolding does not depend on the path -----

  /** The values of a table in the order they are written in. */
  function Written(t: Table): seq<Value> {
    match Classify(t)
    case Some(Items(vals)) => vals
    case Some(Fields(fields)) => Vals(SortFields(fields))
    case _ => []
  }

  lemma WrittenAreEntries(t: Table, i: nat) returns (k: nat)
    requires i < |Written(t)|
    ensures k < |t.entries| && t.entries[k].val == Written(t)[i]
  {
    match Classify(t).value
    case Items(_) =>
      OnlyNumbers(t.entries);
      k := i;
    case Fields(fields) =>
      var sorted := SortFields(fields);
      SortingHas(fields);
      KindsOf(t.entries);
      assert sorted[i] in fields && Entry(StringKey(sorted[i].key), sorted[i].val) in t.entries;
      k :| 0 <= k < |t.entries| && t.entries[k] == Entry(StringKey(sorted[i].key), sorted[i].val);
  }

  lemma EntriesAreWritten(t: Table, k: nat) returns (i: nat)
    requires Classify(t).Some? && k < |t.entries|
    ensures i < |Written(t)| && Written(t)[i] == t.entries[k].val
    ensures Classify(t).value.Items? ==> i == k
  {
    match Classify(t).value
    case Items(_) =>
      OnlyNumbers(t.entries);
      i := k;
    case Fields(fields) =>
      OnlyStrings(t.entries);
      var sorted := SortFields(fields);
      SortingHas(fields);
      assert fields[k] in sorted;
      i :| 0 <= i < |sorted| && sorted[i] == fields[k];
    case Empty(_) =>
      OnlyNumbers(t.entries);
      assert false;
  }

  lemma {:induction false} UnfoldAllEqual(h: Heap, g: Heap, vals: seq<Value>, p: set<Ref>, q: set<Ref>)
    requires Closed(h) && Closed(g)
    ensures (forall i :: 0 <= i < |vals| ==> Unfold(h, vals[i], p) == Unfold(g, vals[i], q)) ==>
      UnfoldAll(h, vals, p) == UnfoldAll(g, vals, q)
    ensures UnfoldAll(h, vals, p).Some? && UnfoldAll(h, vals, p) == UnfoldAll(g, vals, q) ==>
      forall i :: 0 <= i < |vals| ==> Unfold(h, vals[i], p) == Unfold(g, vals[i], q)
    decreases |vals|
  {
    if vals != [] {
      UnfoldAllEqual(h, g, vals[1..], p, q);
      assert forall i :: 1 <= i < |vals| ==> vals[i] == vals[1..][i - 1];
      if UnfoldAll(h, vals, p).Some? && UnfoldAll(g, vals, q).Some? {
        var a, b := UnfoldAll(h, vals, p).value, UnfoldAll(g, vals, q).value;
        assert a[0] == Unfold(h, vals[0], p).value && a[1..] == UnfoldAll(h, vals[1..], p).value;
        assert b[0] == Unfold(g, vals[0], q).value && b[1..] == UnfoldAll(g, vals[1..], q).value;
      }
    }
  }

  /** Tables that are written alike, field names and all, unfold alike exactly if what is in them does. */
  lemma TableEqualIff(h: Heap, g: Heap, r: Ref, p: set<Ref>, q: set<Ref>)
    requires Closed(h) && Closed(g) && r in h && r in g && h[r] == g[r] && r in p && r in q
    requires UnfoldTable(h, r, p).Some?
    ensures UnfoldTable(h, r, p) == UnfoldTable(g, r, q) <==>
      forall k :: 0 <= k < |h[r].entries| ==> Unfold(h, h[r].entries[k].val, p) == Unfold(g, h[r].entries[k].val, q)
  {
    var t := h[r];
    var vals := Written(t);
    UnfoldAllEqual(h, g, vals, p, q);
    assert UnfoldTable(h, r, p) == UnfoldTable(g, r, q) <==> UnfoldAll(h, vals, p) == UnfoldAll(g, vals, q);
    if forall i :: 0 <= i < |vals| ==> Unfold(h, vals[i], p) == Unfold(g, vals[i], q) {
      forall k | 0 <= k < |t.entries|
        ensures Unfold(h, t.entries[k].val, p) == Unfold(g, t.entries[k].val, q)
      {
        var i := EntriesAreWritten(t, k);
      }
    } else {
      var i :| 0 <= i < |vals| && Unfold(h, vals[i], p) != Unfold(g, vals[i], q);
      var k := WrittenAreEntries(t, i);
    }
  }

  /** Whatever can be written below some tables is written in the same way without them. */
  lemma {:induction false} UnfoldForgetsPath(h: Heap, v: Value, path: set<Ref>, less: set<Ref>)
    requires Closed(h) && less <= path && Unfold(h, v, path).Some?
    ensures Unfold(h, v, less) == Unfold(h, v, path)
    decreases h.Keys - path
  {
    if v.Tbl? {
      var t := h[v.ref];
      UnfoldTableIff(h, v.ref, path + {v.ref});
      forall k | 0 <= k < |t.entries|
        ensures Unfold(h, t.entries[k].val, path + {v.ref}) == Unfold(h, t.entries[k].val, less + {v.ref})
      {
        UnfoldForgetsPath(h, t.entries[k].val, path + {v.ref}, less + {v.ref});
      }
      TableEqualIff(h, h, v.ref, path + {v.ref}, less + {v.ref});
    }
  }

  // ----- any order at all -----

  /** If the table is a list, all its members are written alike. */
  ghost predicate AlikeIn(h: Heap, t: Table)
    requires Closed(h)
  {
    Classify(t).Some? && Classify(t).value.Items? ==>
      forall i, j :: 0 <= i < j < |t.entries| ==> Unfold(h, t.entries[i].val, {}) == Unfold(h, t.entries[j].val, {})
  }

  ghost predicate AlikeBelow(h: Heap, v: Value)
    requires Closed(h)
  {
    AllBelow(h, v, t => AlikeIn(h, t))
  }

  lemma {:induction false} AllTheSame(h: Heap, vals: seq<Value>, path: set<Ref>, j: Json)
    requires Closed(h) && forall i :: 0 <= i < |vals| ==> Unfold(h, vals[i], path) == Some(j)
    ensures UnfoldAll(h, vals, path) == Some(seq(|vals|, _ => j))
    decreases |vals|
  {
    if vals == [] {
      assert seq(|vals|, _ => j) == [];
    } else {
      AllTheSame(h, vals[1..], path, j);
      assert Unfold(h, vals[0], path) == Some(j);
      assert UnfoldAll(h, vals, path).value == seq(|vals|, _ => j);
    }
  }

  lemma AlikeChild(h: Heap, v: Value, k: nat)
    requires Closed(h) && Known(h, v) && AlikeBelow(h, v) && v.Tbl? && k < |h[v.ref].entries|
    ensures AlikeIn(h, h[v.ref]) && AlikeBelow(h, h[v.ref].entries[k].val)
  {
    AllBelowIff(h, v, t => AlikeIn(h, t));
  }

  /** What is written of each entry of a table, and that it is the same in both heaps. */
  ghost predicate EntriesAgree(h: Heap, g: Heap, r: Ref, path: set<Ref>)
    requires Closed(h) && Closed(g) && r in h
  {
    forall k :: 0 <= k < |h[r].entries| ==>
      Unfold(h, h[r].entries[k].val, path).Some?
        && Unfold(g, h[r].entries[k].val, path) == Unfold(h, h[r].entries[k].val, path)
  }

  /** The members of a list that are written alike without a path are so with one. */
  lemma AlikeOnPath(h: Heap, g: Heap, r: Ref, path: set<Ref>, k: nat)
    requires Closed(h) && Closed(g) && r in h && k < |h[r].entries| && EntriesAgree(h, g, r, path)
    requires Classify(h[r]).Some? && Classify(h[r]).value.Items? && AlikeIn(h, h[r])
    ensures Unfold(h, h[r].entries[k].val, path) == Unfold(h, h[r].entries[0].val, path)
  {
    UnfoldForgetsPath(h, h[r].entries[k].val, path, {});
    UnfoldForgetsPath(h, h[r].entries[0].val, path, {});
  }

  lemma ListUnfolds(h: Heap, r: Ref, path: set<Ref>, j: Json)
    requires Closed(h) && r in h && r in path && Classify(h[r]).Some? && Classify(h[r]).value.Items?
    requires forall e :: e in h[r].entries ==> Unfold(h, e.val, path) == Some(j)
    ensures UnfoldTable(h, r, path) == Some(Array(seq(|h[r].entries|, _ => j)))
  {
    OnlyNumbers(h[r].entries);
    var vals := Classify(h[r]).value.vals;
    forall i | 0 <= i < |vals|
      ensures Unfold(h, vals[i], path) == Some(j)
    {
      assert h[r].entries[i] in h[r].entries;
    }
    AllTheSame(h, vals, path, j);
  }

  lemma AlikeListUnfolds(h: Heap, g: Heap, r: Ref, path: set<Ref>)
    requires Closed(h) && Closed(g) && r in h && r in g && r in path && SameButForOrder(h[r], g[r])
    requires Classify(h[r]).Some? && Classify(h[r]).value.Items? && AlikeIn(h, h[r]) && EntriesAgree(h, g, r, path)
    ensures UnfoldTable(g, r, path) == UnfoldTable(h, r, path)
  {
    OrderKeepsKind(h[r], g[r]);
    SameEntries(h[r], g[r]);
    OnlyNumbers(h[r].entries);
    var j := Unfold(h, h[r].entries[0].val, path).value;
    forall k | 0 <= k < |h[r].entries|
      ensures Unfold(h, h[r].entries[k].val, path) == Some(j)
    {
      AlikeOnPath(h, g, r, path, k);
    }
    ListUnfolds(h, r, path, j);
    ListUnfolds(g, r, path, j);
  }

  lemma FieldsUnfold(h: Heap, g: Heap, r: Ref, path: set<Ref>)
    requires LuaHeap(h) && LuaHeap(g) && r in h && r in g && r in path && SameButForOrder(h[r], g[r])
    requires Classify(h[r]).Some? && Classify(h[r]).value.Fields? && EntriesAgree(h, g, r, path)
    ensures UnfoldTable(g, r, path) == UnfoldTable(h, r, path)
  {
    SameKeysSorted(h[r], g[r]);
    var vals := Written(h[r]);
    forall i | 0 <= i < |vals|
      ensures Unfold(h, vals[i], path) == Unfold(g, vals[i], path)
    {
      var k := WrittenAreEntries(h[r], i);
    }
    UnfoldAllEqual(h, g, vals, path, path);
  }

  lemma EmptyUnfolds(h: Heap, g: Heap, r: Ref, path: set<Ref>)
    requires LuaHeap(h) && LuaHeap(g) && r in h && r in g && r in path && SameButForOrder(h[r], g[r])
    requires Classify(h[r]).Some? && Classify(h[r]).value.Empty?
    ensures UnfoldTable(g, r, path) == UnfoldTable(h, r, path)
  {
    OrderKeepsKind(h[r], g[r]);
  }

  lemma {:induction false} AlikeDoesNotShow(h: Heap, g: Heap, v: Value, path: set<Ref>)
    requires LuaHeap(h) && LuaHeap(g) && SameButForOrders(h, g) && Known(h, v)
    requires AlikeBelow(h, v) && Unfold(h, v, path).Some?
    ensures Unfold(g, v, path) == Unfold(h, v, path)
    decreases h.Keys - path
  {
    if v.Tbl? {
      var r, below := v.ref, path + {v.ref};
      UnfoldTableIff(h, r, below);
      forall k | 0 <= k < |h[r].entries|
        ensures Unfold(h, h[r].entries[k].val, below).Some?
        ensures Unfold(g, h[r].entries[k].val, below) == Unfold(h, h[r].entries[k].val, below)
        ensures AlikeIn(h, h[r])
      {
        AlikeChild(h, v, k);
        AlikeDoesNotShow(h, g, h[r].entries[k].val, below);
      }
      match Classify(h[r]).value {
        case Items(_) =>
          OnlyNumbers(h[r].entries);
          assert AlikeIn(h, h[r]);
          AlikeListUnfolds(h, g, r, below);
        case Fields(_) => FieldsUnfold(h, g, r, below);
        case Empty(_) => EmptyUnfolds(h, g, r, below);
      }
    }
  }

  /** Heaps that differ in one table at most. */
  ghost predicate SameBut(h: Heap, g: Heap, r: Ref) {
    Closed(h) && Closed(g) && h.Keys == g.Keys && forall q :: q in h && q != r ==> g[q] == h[q]
  }

  /** What can be written below a table does not go through that table. */
  lemma {:induction false} BelowIsTheSame(h: Heap, g: Heap, r: Ref, v: Value, path: set<Ref>)
    requires SameBut(h, g, r) && r in path && Unfold(h, v, path).Some?
    ensures Unfold(g, v, path) == Unfold(h, v, path)
    decreases h.Keys - path
  {
    if v.Tbl? {
      var t, below := h[v.ref], path + {v.ref};
      UnfoldTableIff(h, v.ref, below);
      forall k | 0 <= k < |t.entries|
        ensures Unfold(h, t.entries[k].val, below) == Unfold(g, t.entries[k].val, below)
      {
        BelowIsTheSame(h, g, r, t.entries[k].val, below);
      }
      TableEqualIff(h, g, v.ref, below, below);
    }
  }

  lemma {:induction false} UnfoldAllAt(h: Heap, vals: seq<Value>, path: set<Ref>, i: nat)
    requires Closed(h) && UnfoldAll(h, vals, path).Some? && i < |vals|
    ensures Unfold(h, vals[i], path) == Some(UnfoldAll(h, vals, path).value[i])
    decreases |vals|
  {
    if i > 0 {
      UnfoldAllAt(h, vals[1..], path, i - 1);
    }
  }

  lemma ItemAt(h: Heap, r: Ref, path: set<Ref>, i: nat)
    requires Closed(h) && r in h && r in path && i < |h[r].entries|
    requires Classify(h[r]).Some? && Classify(h[r]).value.Items? && UnfoldTable(h, r, path).Some?
    ensures UnfoldTable(h, r, path).value.Array? && i < |UnfoldTable(h, r, path).value.items|
    ensures Unfold(h, h[r].entries[i].val, path) == Some(UnfoldTable(h, r, path).value.items[i])
  {
    OnlyNumbers(h[r].entries);
    UnfoldAllAt(h, Classify(h[r]).value.vals, path, i);
  }

  /** In `g` the entry that `h` has at `j` comes at `i`; nothing else than the order of this table is different. */
  ghost predicate Moved(h: Heap, g: Heap, r: Ref, i: nat, j: nat) {
    && SameBut(h, g, r) && r in h && i < |h[r].entries| && j < |h[r].entries| && SameButForOrder(h[r], g[r])
    && i < |g[r].entries| && g[r].entries[i] == h[r].entries[j]
  }

  /** A list with two members that are written differently. */
  ghost predicate Differ(h: Heap, r: Ref, i: nat, j: nat) {
    && Closed(h) && r in h && i < |h[r].entries| && j < |h[r].entries|
    && Classify(h[r]).Some? && Classify(h[r]).value.Items?
    && Unfold(h, h[r].entries[i].val, {}) != Unfold(h, h[r].entries[j].val, {})
  }

  /** The table with two entries visited the other way round. */
  function Swapped(t: Table, i: nat, j: nat): Table
    requires i < |t.entries| && j < |t.entries|
  {
    t.(entries := t.entries[i := t.entries[j]][j := t.entries[i]])
  }

  lemma SwappedIsSame(t: Table, i: nat, j: nat)
    requires i < j < |t.entries|
    ensures SameButForOrder(t, Swapped(t, i, j)) && Swapped(t, i, j).entries[i] == t.entries[j]
  {
  }

  lemma NoStringsStill(t: Table, u: Table)
    requires SameButForOrder(t, u) && StringVals(t.entries) == []
    ensures StringVals(u.entries) == []
  {
    SameFields(t, u);
    SomeField(StringVals(u.entries));
  }

  lemma StaysClosed(h: Heap, r: Ref, u: Table)
    requires Closed(h) && r in h && forall e :: e in u.entries ==> e in h[r].entries
    ensures Closed(h[r := u])
  {
    forall i | 0 <= i < |u.entries|
      ensures Known(h, u.entries[i].val)
    {
      assert u.entries[i] in h[r].entries;
    }
  }

  /** Another order of one list is one of the heaps that differ in the order of entries only. */
  lemma ListReordered(h: Heap, r: Ref, u: Table)
    requires LuaHeap(h) && r in h && SameButForOrder(h[r], u) && StringVals(h[r].entries) == []
    ensures LuaHeap(h[r := u]) && SameButForOrders(h, h[r := u]) && SameBut(h, h[r := u], r)
  {
    NoStringsStill(h[r], u);
    SameEntries(h[r], u);
    StaysClosed(h, r, u);
  }

  lemma SwappedIsReordering(h: Heap, r: Ref, i: nat, j: nat)
    requires LuaHeap(h) && i < j && Differ(h, r, i, j)
    ensures var g := h[r := Swapped(h[r], i, j)];
      LuaHeap(g) && SameButForOrders(h, g) && Moved(h, g, r, i, j)
  {
    SwappedIsSame(h[r], i, j);
    ListReordered(h, r, Swapped(h[r], i, j));
  }

  lemma SwapShowsHere(h: Heap, g: Heap, r: Ref, i: nat, j: nat, path: set<Ref>)
    requires Moved(h, g, r, i, j) && Differ(h, r, i, j) && r in path && UnfoldTable(h, r, path).Some?
    ensures UnfoldTable(g, r, path) != UnfoldTable(h, r, path)
  {
    OrderKeepsKind(h[r], g[r]);
    ItemAt(h, r, path, i);
    ItemAt(h, r, path, j);
    UnfoldForgetsPath(h, h[r].entries[i].val, path, {});
    UnfoldForgetsPath(h, h[r].entries[j].val, path, {});
    BelowIsTheSame(h, g, r, h[r].entries[j].val, path);
    if UnfoldTable(g, r, path).Some? {
      ItemAt(g, r, path, i);
    }
  }

  lemma NextOnTrail(h: Heap, v: Value, path: set<Ref>, refs: seq<Ref>) returns (m: nat)
    requires Closed(h) && Trail(h, v, refs) && |refs| > 1 && Unfold(h, v, path).Some?
    ensures v == Tbl(refs[0]) && refs[0] in h && m < |h[refs[0]].entries|
    ensures Trail(h, h[refs[0]].entries[m].val, refs[1..])
    ensures Unfold(h, h[refs[0]].entries[m].val, path + {refs[0]}).Some?
  {
    m :| 0 <= m < |h[refs[0]].entries| && Trail(h, h[refs[0]].entries[m].val, refs[1..]);
    UnfoldTableIff(h, refs[0], path + {refs[0]});
  }

  /** What shows in an entry of a table that is the same in both heaps shows in the table. */
  lemma ShowsOneUp(h: Heap, g: Heap, r: Ref, m: nat, path: set<Ref>)
    requires Closed(h) && Closed(g) && r in h && r in g && h[r] == g[r] && m < |h[r].entries|
    requires Unfold(h, Tbl(r), path).Some?
    requires Unfold(g, h[r].entries[m].val, path + {r}) != Unfold(h, h[r].entries[m].val, path + {r})
    ensures Unfold(g, Tbl(r), path) != Unfold(h, Tbl(r), path)
  {
    TableEqualIff(h, g, r, path + {r}, path + {r});
  }

  /** A swap in a table on a way down shows all the way up. */
  lemma {:induction false} SwapShows(
    h: Heap, g: Heap, v: Value, path: set<Ref>, refs: seq<Ref>, k: nat, i: nat, j: nat)
    requires Closed(h) && Trail(h, v, refs) && k < |refs| && Unfold(h, v, path).Some?
    requires Moved(h, g, refs[k], i, j) && Differ(h, refs[k], i, j)
    ensures Unfold(g, v, path) != Unfold(h, v, path)
    decreases k
  {
    var r := refs[0];
    if r == refs[k] {
      SwapShowsHere(h, g, r, i, j, path + {r});
    } else {
      var m := NextOnTrail(h, v, path, refs);
      SwapShows(h, g, h[r].entries[m].val, path + {r}, refs[1..], k - 1, i, j);
      ShowsOneUp(h, g, r, m, path);
    }
  }

  lemma ShowsInSomeOrder(h: Heap, v: Value, refs: seq<Ref>, k: nat, i: nat, j: nat) returns (g: Heap)
    requires LuaHeap(h) && Trail(h, v, refs) && k < |refs| && Unfold(h, v, {}).Some?
    requires i < j && Differ(h, refs[k], i, j)
    ensures g == h[refs[k] := Swapped(h[refs[k]], i, j)]
    ensures LuaHeap(g) && SameButForOrders(h, g) && Unfold(g, v, {}) != Unfold(h, v, {})
  {
    SwappedIsReordering(h, refs[k], i, j);
    g := h[refs[k] := Swapped(h[refs[k]], i, j)];
    SwapShows(h, g, v, {}, refs, k, i, j);
  }

  lemma DifferSomewhere(h: Heap, v: Value) returns (refs: seq<Ref>, k: nat, i: nat, j: nat)
    requires Closed(h) && Known(h, v) && Unfold(h, v, {}).Some? && !AlikeBelow(h, v)
    ensures Trail(h, v, refs) && k < |refs| && i < j && Differ(h, refs[k], i, j)
  {
    WrittenIff(h, v);
    refs, k :| Trail(h, v, refs) && 0 <= k < |refs| && !(refs[k] in h && AlikeIn(h, h[refs[k]]));
    assert Fine(h, refs, {}, InOrder);
    var t := h[refs[k]];
    i, j :| 0 <= i < j < |t.entries| && Unfold(h, t.entries[i].val, {}) != Unfold(h, t.entries[j].val, {});
  }

  /**
   What is written is the same for every order of iteration if and only if the members of each list on any way
   down are written alike: fields are sorted, the members of a list come as they are visited.
   */
  lemma OrderShowsIff(h: Heap, v: Value)
    requires LuaHeap(h) && Known(h, v) && Unfold(h, v, {}).Some?
    ensures (forall g :: LuaHeap(g) && SameButForOrders(h, g) ==> Unfold(g, v, {}) == Unfold(h, v, {})) <==>
      AlikeBelow(h, v)
  {
    if AlikeBelow(h, v) {
      forall g | LuaHeap(g) && SameButForOrders(h, g)
        ensures Unfold(g, v, {}) == Unfold(h, v, {})
      {
        AlikeDoesNotShow(h, g, v, {});
      }
    } else {
      var refs, k, i, j := DifferSomewhere(h, v);
      var g := ShowsInSomeOrder(h, v, refs, k, i, j);
    }
  }

  // ----- the order the program gets -----

  ghost predicate NumbersRise(entries: seq<Entry>) {
    && (forall i :: 0 <= i < |entries| ==> entries[i].key.NumberKey? && entries[i].key.n.Finite?)
    && forall i, j :: 0 <= i < j < |entries| ==> entries[i].key.n.x < entries[j].key.n.x
  }

  /** If it is a list, its keys are finite and rise in the order of iteration, as those of an array part do. */
  ghost predicate Rising(t: Table) {
    Classify(t).Some? && Classify(t).value.Items? ==> NumbersRise(t.entries)
  }

  lemma FirstOneWay(s: seq<Entry>, t: seq<Entry>)
    requires s != [] && NumbersRise(s) && NumbersRise(t) && multiset(s) == multiset(t)
    ensures t != [] && s[0] == t[0]
  {
    assert s[0] in multiset(t);
    var i :| 0 <= i < |t| && t[i] == s[0];
    assert t[0] in multiset(s);
    var j :| 0 <= j < |s| && s[j] == t[0];
  }

  lemma RestRises(s: seq<Entry>)
    requires s != [] && NumbersRise(s)
    ensures NumbersRise(s[1..]) && multiset(s[1..]) == multiset(s) - multiset{s[0]}
  {
    assert s == [s[0]] + s[1..];
  }

  lemma {:induction false} RisingOneWay(s: seq<Entry>, t: seq<Entry>)
    requires NumbersRise(s) && NumbersRise(t) && multiset(s) == multiset(t)
    ensures s == t
    decreases |s|
  {
    if s == [] {
      assert |multiset(t)| == |t|;
    } else {
      FirstOneWay(s, t);
      RestRises(s);
      RestRises(t);
      RisingOneWay(s[1..], t[1..]);
      assert s == [s[0]] + s[1..] && t == [t[0]] + t[1..];
    }
  }

  /** Heaps that differ in the order of entries only, both with rising lists below `v`. */
  ghost predicate Reordered(h: Heap, g: Heap, v: Value) {
    && LuaHeap(h) && LuaHeap(g) && SameButForOrders(h, g)
    && Known(h, v) && AllBelow(h, v, Rising) && AllBelow(g, v, Rising)
  }

  lemma ReorderedBelow(h: Heap, g: Heap, v: Value, e: Entry)
    requires Reordered(h, g, v) && v.Tbl? && e in h[v.ref].entries
    ensures Reordered(h, g, e.val)
  {
    SameEntries(h[v.ref], g[v.ref]);
    AllBelowIff(h, v, Rising);
    AllBelowIff(g, v, Rising);
    assert e in g[v.ref].entries;
  }

  /** A table as it is written, its fields sorted. */
  function Arranged(t: Table): Option<Shape> {
    match Classify(t)
    case Some(Fields(fields)) => Some(Fields(SortFields(fields)))
    case shape => shape
  }

  lemma WrittenTheSame(h: Heap, g: Heap, v: Value)
    requires Reordered(h, g, v) && v.Tbl?
    ensures Arranged(h[v.ref]) == Arranged(g[v.ref])
  {
    var t, u := h[v.ref], g[v.ref];
    OrderKeepsKind(t, u);
    AllBelowIff(h, v, Rising);
    AllBelowIff(g, v, Rising);
    if Classify(t).Some? {
      match Classify(t).value {
        case Items(_) => RisingOneWay(t.entries, u.entries);
        case Fields(_) => SameKeysSorted(t, u);
        case Empty(_) =>
      }
    }
  }

  lemma WrittenReordered(h: Heap, g: Heap, v: Value, i: nat)
    requires Reordered(h, g, v) && v.Tbl? && i < |Written(h[v.ref])|
    ensures Reordered(h, g, Written(h[v.ref])[i])
  {
    var k := WrittenAreEntries(h[v.ref], i);
    ReorderedBelow(h, g, v, h[v.ref].entries[k]);
  }

  lemma TableUnfolds(h: Heap, g: Heap, r: Ref, path: set<Ref>)
    requires Closed(h) && Closed(g) && r in h && r in g && r in path && Arranged(h[r]) == Arranged(g[r])
    requires UnfoldAll(h, Written(h[r]), path) == UnfoldAll(g, Written(h[r]), path)
    ensures UnfoldTable(h, r, path) == UnfoldTable(g, r, path)
  {
  }

  lemma {:induction false} RisingDoesNotShow(h: Heap, g: Heap, v: Value, path: set<Ref>)
    requires Reordered(h, g, v)
    ensures Unfold(h, v, path) == Unfold(g, v, path)
    decreases h.Keys - path
  {
    if v.Tbl? && v.ref !in path {
      var below, vals := path + {v.ref}, Written(h[v.ref]);
      WrittenTheSame(h, g, v);
      forall i | 0 <= i < |vals|
        ensures Unfold(h, vals[i], below) == Unfold(g, vals[i], below)
      {
        WrittenReordered(h, g, v, i);
        RisingDoesNotShow(h, g, vals[i], below);
      }
      UnfoldAllEqual(h, g, vals, below, below);
      TableUnfolds(h, g, v.ref, below);
    }
  }

  /**
   What is written does not depend on the order in which tables are iterated over, as long as the keys of lists
   rise in it, gaps or not.
   */
  lemma OrderDoesNotShow(h: Heap, g: Heap, v: Value)
    requires Reordered(h, g, v)
    ensures Unfold(h, v, {}) == Unfold(g, v, {})
  {
    RisingDoesNotShow(h, g, v, {});
  }

  lemma ThreeNumbers(entries: seq<Entry>)
    requires |entries| == 3 && forall i :: 0 <= i < 3 ==> entries[i].key.NumberKey?
    ensures NumberVals(entries) == [entries[0].val, entries[1].val, entries[2].val]
    ensures StringVals(entries) == [] && !AnyOdd(entries)
  {
    TwoNumbers(entries[..2]);
  }

  /** A table of length 3. */
  function OfLengthThree(a: Entry, b: Entry, c: Entry): Heap {
    map[0 := Table([a, b, c], 3, false)]
  }

  lemma ThreeItems(a: Entry, b: Entry, c: Entry)
    requires a.key.NumberKey? && b.key.NumberKey? && c.key.NumberKey?
    requires Primitive(a.val).Some? && Primitive(b.val).Some? && Primitive(c.val).Some?
    ensures var h := OfLengthThree(a, b, c);
      LuaHeap(h) && Classify(h[0]) == Some(Items([a.val, b.val, c.val])) && UnfoldTable(h, 0, {0}).Some?
  {
    var h := OfLengthThree(a, b, c);
    ThreeNumbers([a, b, c]);
    UnfoldTableIff(h, 0, {0});
  }

  lemma ThreeSwapped(a: Entry, b: Entry, c: Entry)
    ensures OfLengthThree(a, c, b) == OfLengthThree(a, b, c)[0 := Swapped(OfLengthThree(a, b, c)[0], 1, 2)]
  {
    var t := OfLengthThree(a, b, c)[0];
    assert Swapped(t, 1, 2).entries == [a, c, b];
    assert OfLengthThree(a, b, c)[0 := Swapped(t, 1, 2)].Keys == {0};
  }

  lemma ThreeDiffer(a: Entry, b: Entry, c: Entry)
    requires a.key.NumberKey? && b.key.NumberKey? && c.key.NumberKey?
    requires Primitive(a.val).Some? && Primitive(b.val).Some? && Primitive(c.val).Some?
    requires Primitive(b.val) != Primitive(c.val)
    ensures var h := OfLengthThree(a, b, c);
      LuaHeap(h) && Differ(h, 0, 1, 2) && Unfold(h, Tbl(0), {}).Some?
  {
    assert {} + {0} == {0};
    ThreeItems(a, b, c);
    ThreeNumbers([a, b, c]);
  }

  lemma OrderOfThreeShows(a: Entry, b: Entry, c: Entry)
    requires a.key.NumberKey? && b.key.NumberKey? && c.key.NumberKey?
    requires Primitive(a.val).Some? && Primitive(b.val).Some? && Primitive(c.val).Some?
    requires Primitive(b.val) != Primitive(c.val)
    ensures var h, g := OfLengthThree(a, b, c), OfLengthThree(a, c, b);
      && LuaHeap(h) && LuaHeap(g) && SameButForOrders(h, g)
      && Unfold(h, Tbl(0), {}).Some? && Unfold(g, Tbl(0), {}) != Unfold(h, Tbl(0), {})
  {
    var h, g := OfLengthThree(a, b, c), OfLengthThree(a, c, b);
    ThreeDiffer(a, b, c);
    ThreeSwapped(a, b, c);
    var other := ShowsInSomeOrder(h, Tbl(0), [0], 0, 1, 2);
    ThreeItems(a, c, b);
  }

  /**
   Fractions, zero and negative numbers come in the order they were put in, so it does show: a table of length 3
   with two gaps has room for two of them, and they are written in either order.
   */
  lemma OrderOfFractionsShows(x: Value, y: Value, z: Value)
    requires Primitive(x).Some? && Primitive(y).Some? && Primitive(z).Some? && Primitive(x) != Primitive(y)
    ensures var third, half, more :=
        Entry(NumberKey(Finite(3.0)), z), Entry(NumberKey(Finite(0.5)), x), Entry(NumberKey(Finite(1.5)), y);
      var h, g := OfLengthThree(third, half, more), OfLengthThree(third, more, half);
      && LuaHeap(h) && LuaHeap(g) && SameButForOrders(h, g)
      && Unfold(h, Tbl(0), {}).Some? && Unfold(g, Tbl(0), {}) != Unfold(h, Tbl(0), {})
  {
    OrderOfThreeShows(
      Entry(NumberKey(Finite(3.0)), z), Entry(NumberKey(Finite(0.5)), x), Entry(NumberKey(Finite(1.5)), y));
  }
}
