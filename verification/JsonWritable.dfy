/** Which Lua values can be written as JSON, and what sorting does to fields (internal/luapi/lua-json.go). */
module JsonWritable {
  import opened Prelude
  import opened GoStrings
  import opened LuaGraph
  import opened JsonSerializer

  predicate Writable(v: Value) {
    v.Tbl? || Primitive(v).Some?
  }

  /** Of values that are not tables these can be written; nil, functions and what JSON has no number for cannot. */
  lemma WritableIff(v: Value)
    ensures Writable(v) <==> v.Tbl? || v.JsonNull? || v.Bool? || v.Str? || (v.Num? && v.n.Finite?)
  {
  }

  /** A list, an object or empty, with nothing in it that could never be written. */
  predicate InOrder(t: Table) {
    Classify(t).Some? && forall i :: 0 <= i < |t.entries| ==> Writable(t.entries[i].val)
  }

  lemma {:induction false} UnfoldAllIff(h: Heap, vals: seq<Value>, path: set<Ref>)
    requires Closed(h)
    ensures UnfoldAll(h, vals, path).Some? <==> forall i :: 0 <= i < |vals| ==> Unfold(h, vals[i], path).Some?
    decreases |vals|
  {
    if vals != [] {
      UnfoldAllIff(h, vals[1..], path);
      assert forall i :: 1 <= i < |vals| ==> vals[i] == vals[1..][i - 1];
    }
  }

  lemma {:induction false} OnlyNumbers(entries: seq<Entry>)
    requires !AnyOdd(entries) && StringVals(entries) == []
    ensures |NumberVals(entries)| == |entries|
    ensures forall i :: 0 <= i < |entries| ==> entries[i].key.NumberKey? && NumberVals(entries)[i] == entries[i].val
    decreases |entries|
  {
    if entries != [] {
      assert !entries[|entries| - 1].key.OddKey?;
      OnlyNumbers(entries[..|entries| - 1]);
    }
  }

  lemma {:induction false} OnlyStrings(entries: seq<Entry>)
    requires !AnyOdd(entries) && NumberVals(entries) == []
    ensures |StringVals(entries)| == |entries|
    ensures forall i :: 0 <= i < |entries| ==>
      entries[i].key == StringKey(StringVals(entries)[i].key) && entries[i].val == StringVals(entries)[i].val
    decreases |entries|
  {
    if entries != [] {
      assert !entries[|entries| - 1].key.OddKey?;
      OnlyStrings(entries[..|entries| - 1]);
    }
  }

  lemma {:induction false} InsertHas(kv: KeyVal, sorted: seq<KeyVal>)
    ensures forall x :: x in Insert(kv, sorted) <==> x == kv || x in sorted
  {
    if sorted != [] && Lex(sorted[0].key, kv.key) {
      InsertHas(kv, sorted[1..]);
      assert sorted == [sorted[0]] + sorted[1..];
    }
  }

  lemma {:induction false} SortingHas(fields: seq<KeyVal>)
    ensures forall x :: x in SortFields(fields) <==> x in fields
  {
    if fields != [] {
      SortingHas(fields[1..]);
      InsertHas(fields[0], SortFields(fields[1..]));
      assert fields == [fields[0]] + fields[1..];
    }
  }

  lemma SortedOrNot(h: Heap, fields: seq<KeyVal>, path: set<Ref>)
    requires Closed(h)
    ensures UnfoldAll(h, Vals(SortFields(fields)), path).Some? <==>
      forall i :: 0 <= i < |fields| ==> Unfold(h, fields[i].val, path).Some?
  {
    var sorted := SortFields(fields);
    UnfoldAllIff(h, Vals(sorted), path);
    SortingHas(fields);
    if UnfoldAll(h, Vals(sorted), path).Some? {
      forall i | 0 <= i < |fields|
        ensures Unfold(h, fields[i].val, path).Some?
      {
        assert fields[i] in sorted;
        var j :| 0 <= j < |sorted| && sorted[j] == fields[i];
        assert Unfold(h, Vals(sorted)[j], path).Some?;
      }
    } else {
      var j :| 0 <= j < |sorted| && Unfold(h, Vals(sorted)[j], path).None?;
      assert sorted[j] in fields;
    }
  }

  /** All children of a table in order are written. */
  lemma UnfoldTableIff(h: Heap, r: Ref, path: set<Ref>)
    requires Closed(h) && r in h && r in path && Classify(h[r]).Some?
    ensures UnfoldTable(h, r, path).Some? <==>
      forall i :: 0 <= i < |h[r].entries| ==> Unfold(h, h[r].entries[i].val, path).Some?
  {
    var entries := h[r].entries;
    match Classify(h[r]).value
    case Items(vals) =>
      OnlyNumbers(entries);
      UnfoldAllIff(h, vals, path);
      assert UnfoldTable(h, r, path).Some? <==> UnfoldAll(h, vals, path).Some?;
    case Fields(fields) =>
      OnlyStrings(entries);
      SortedOrNot(h, fields, path);
    case Empty(_) =>
      OnlyNumbers(entries);
  }

  lemma {:induction false} UnfoldIff(h: Heap, v: Value, path: set<Ref>)
    requires Closed(h)
    ensures Unfold(h, v, path).Some? <==> Writable(v) && Passable(h, v, path, InOrder)
    decreases h.Keys - path
  {
    if v.Tbl? && v.ref in h && v.ref !in path {
      var t := h[v.ref];
      if Classify(t).Some? {
        UnfoldTableIff(h, v.ref, path + {v.ref});
      }
      forall i | 0 <= i < |t.entries|
        ensures Unfold(h, t.entries[i].val, path + {v.ref}).Some? <==>
          Writable(t.entries[i].val) && Passable(h, t.entries[i].val, path + {v.ref}, InOrder)
      {
        UnfoldIff(h, t.entries[i].val, path + {v.ref});
      }
    }
  }

  /**
   Writing succeeds exactly if no way down from the value meets a table twice and every table on the way is
   in order.  A table that is merely shared does no harm.
   */
  lemma WrittenIff(h: Heap, v: Value)
    requires Closed(h) && Known(h, v)
    ensures Unfold(h, v, {}).Some? <==> Writable(v) && forall refs :: Trail(h, v, refs) ==> Fine(h, refs, {}, InOrder)
  {
    UnfoldIff(h, v, {});
    PassableIff(h, v, InOrder);
  }

  // ----- what a table counts as -----

  predicate AllNumbers(entries: seq<Entry>) {
    forall i :: 0 <= i < |entries| ==> entries[i].key.NumberKey?
  }

  predicate AllStrings(entries: seq<Entry>) {
    forall i :: 0 <= i < |entries| ==> entries[i].key.StringKey?
  }

  lemma {:induction false} NumbersAre(entries: seq<Entry>)
    requires AllNumbers(entries)
    ensures StringVals(entries) == [] && |NumberVals(entries)| == |entries|
    decreases |entries|
  {
    if entries != [] {
      NumbersAre(entries[..|entries| - 1]);
    }
  }

  lemma {:induction false} StringsAre(entries: seq<Entry>)
    requires AllStrings(entries)
    ensures NumberVals(entries) == [] && |StringVals(entries)| == |entries|
    decreases |entries|
  {
    if entries != [] {
      StringsAre(entries[..|entries| - 1]);
    }
  }

  /**
   A table is written as a list if all its keys are numbers and there are no more of them than its length, as an
   object if all are strings, and by its mark if it has none; any other table cannot be written.
   */
  lemma ShapeIs(t: Table)
    ensures match Classify(t)
      case Some(Items(vals)) =>
        && t.entries != [] && AllNumbers(t.entries) && |vals| == |t.entries| <= t.len
        && forall i :: 0 <= i < |vals| ==> vals[i] == t.entries[i].val
      case Some(Fields(fields)) =>
        && t.entries != [] && AllStrings(t.entries) && |fields| == |t.entries|
        && forall i :: 0 <= i < |fields| ==> fields[i] == KeyVal(t.entries[i].key.s, t.entries[i].val)
      case Some(Empty(asArray)) => t.entries == [] && asArray == t.asEmptyArray
      case None => t.entries != [] && !AllStrings(t.entries) && !(AllNumbers(t.entries) && |t.entries| <= t.len)
  {
    if AllNumbers(t.entries) {
      NumbersAre(t.entries);
    }
    if AllStrings(t.entries) {
      StringsAre(t.entries);
    }
    if Classify(t).Some? {
      if StringVals(t.entries) == [] {
        OnlyNumbers(t.entries);
      } else {
        OnlyStrings(t.entries);
      }
    }
  }

  /** An empty table is written as what it is marked as, without anything in between. */
  lemma EmptyTableText(h: Heap, r: Ref, path: set<Ref>, indent: string, o: Layout)
    requires Closed(h) && r in h && r !in path && h[r].entries == []
    ensures Unfold(h, Tbl(r), path).Some?
    ensures Render(Unfold(h, Tbl(r), path).value, indent, o) ==
      if h[r].asEmptyArray then [Punct('['), Punct(']')] else [Punct('{'), Punct('}')]
  {
    ShapeIs(h[r]);
  }

  // ----- sorting -----

  predicate Ascending(fields: seq<KeyVal>) {
    forall i, j :: 0 <= i < j < |fields| ==> Lex(fields[i].key, fields[j].key)
  }

  predicate DistinctKeys(fields: seq<KeyVal>) {
    forall i, j :: 0 <= i < j < |fields| ==> fields[i].key != fields[j].key
  }

  lemma {:induction false} InsertAscends(kv: KeyVal, sorted: seq<KeyVal>)
    requires Ascending(sorted) && forall i :: 0 <= i < |sorted| ==> sorted[i].key != kv.key
    ensures Ascending(Insert(kv, sorted))
  {
    if sorted == [] {
    } else if Lex(sorted[0].key, kv.key) {
      InsertAscends(kv, sorted[1..]);
      InsertHas(kv, sorted[1..]);
      var rest := Insert(kv, sorted[1..]);
      forall j | 0 <= j < |rest|
        ensures Lex(sorted[0].key, rest[j].key)
      {
        assert rest[j] in rest;
      }
    } else {
      LexTotal(sorted[0].key, kv.key);
      forall j | 0 <= j < |sorted|
        ensures Lex(kv.key, sorted[j].key)
      {
        if j > 0 {
          LexTransitive(kv.key, sorted[0].key, sorted[j].key);
        }
      }
    }
  }

  lemma {:induction false} SortingAscends(fields: seq<KeyVal>)
    requires DistinctKeys(fields)
    ensures Ascending(SortFields(fields))
  {
    if fields != [] {
      SortingAscends(fields[1..]);
      SortingHas(fields[1..]);
      var sorted := SortFields(fields[1..]);
      forall i | 0 <= i < |sorted|
        ensures sorted[i].key != fields[0].key
      {
        assert sorted[i] in fields[1..];
      }
      InsertAscends(fields[0], sorted);
    }
  }

  lemma SomeField(s: seq<KeyVal>)
    ensures s != [] ==> s[0] in s && exists x :: x in s
  {
    if s != [] {
      assert s[0] in s;
    }
  }

  lemma RestOf(s: seq<KeyVal>)
    requires s != [] && Ascending(s)
    ensures Ascending(s[1..]) && forall x :: x in s[1..] <==> x in s && x != s[0]
  {
    forall k | 1 <= k < |s|
      ensures s[k] != s[0]
    {
      LexTotal(s[0].key, s[k].key);
    }
  }

  lemma {:induction false} AscendingOneWay(s: seq<KeyVal>, t: seq<KeyVal>)
    requires Ascending(s) && Ascending(t) && forall x :: x in s <==> x in t
    ensures s == t
    decreases |s|
  {
    SomeField(s);
    SomeField(t);
    if s != [] {
      var i :| 0 <= i < |t| && t[i] == s[0];
      var j :| 0 <= j < |s| && s[j] == t[0];
      LexTotal(s[0].key, t[0].key);
      assert s[0] == t[0];
      RestOf(s);
      RestOf(t);
      AscendingOneWay(s[1..], t[1..]);
    }
  }

  /** A table has each string key once. */
  ghost predicate LuaHeap(h: Heap) {
    Closed(h) && forall r :: r in h ==> DistinctKeys(StringVals(h[r].entries))
  }

  /** If it is a list, its keys are 1, 2, ... and come in this order. */
  predicate Gapless(t: Table) {
    Classify(t).Some? && Classify(t).value.Items? ==>
      forall i :: 0 <= i < |t.entries| ==> t.entries[i].key == NumberKey(Finite((i + 1) as real))
  }

  lemma {:induction false} KindsOf(entries: seq<Entry>)
    ensures NumberVals(entries) != [] <==> exists i :: 0 <= i < |entries| && entries[i].key.NumberKey?
    ensures forall x :: x in StringVals(entries) <==> Entry(StringKey(x.key), x.val) in entries
  {
    if entries != [] {
      var before, last := entries[..|entries| - 1], entries[|entries| - 1];
      KindsOf(before);
      assert entries == before + [last];
      if last.key.NumberKey? {
        assert entries[|entries| - 1].key.NumberKey?;
      }
    }
  }

  lemma TwoNumbers(entries: seq<Entry>)
    requires |entries| == 2 && entries[0].key.NumberKey? && entries[1].key.NumberKey?
    ensures NumberVals(entries) == [entries[0].val, entries[1].val] && StringVals(entries) == []
  {
    assert entries[..1][..0] == [] && entries[..1][0] == entries[0];
    assert NumberVals(entries[..1]) == [entries[0].val];
    assert StringVals(entries[..1]) == [];
  }

  lemma TwoUnfold(h: Heap, x: Value, z: Value, path: set<Ref>)
    requires Closed(h) && Primitive(x).Some? && Primitive(z).Some?
    ensures UnfoldAll(h, [x, z], path) == Some([Primitive(x).value, Primitive(z).value])
  {
    assert [x, z][1..] == [z] && [z][1..] == [];
    var a, b := Primitive(x).value, Primitive(z).value;
    assert Unfold(h, x, path) == Some(a) && Unfold(h, z, path) == Some(b);
    assert UnfoldAll(h, [z], path) == Some([b] + []) && [b] + [] == [b];
    assert UnfoldAll(h, [x, z], path) == Some([a] + [b]) && [a] + [b] == [a, b];
  }

  lemma TwoItemsUnfold(h: Heap, x: Value, z: Value)
    requires Closed(h) && 0 in h && |h[0].entries| == 2 && h[0].len >= 2
    requires h[0].entries[0].key.NumberKey? && h[0].entries[0].val == x && Primitive(x).Some?
    requires h[0].entries[1].key.NumberKey? && h[0].entries[1].val == z && Primitive(z).Some?
    ensures Unfold(h, Tbl(0), {}) == Some(Array([Primitive(x).value, Primitive(z).value]))
  {
    TwoNumbers(h[0].entries);
    TwoUnfold(h, x, z, {} + {0});
  }
}
