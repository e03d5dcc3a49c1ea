/**
 Lua values and the graph their tables make (internal/luapi/lua-json.go, lua-goapi.go).
 */
module LuaGraph {
  import opened Prelude

  type Ref = nat

  datatype Number = Finite(x: real) | NotFinite

  datatype Value =
    | Nil
    | Bool(b: bool)
    | Num(n: Number)
    | Str(s: string)
    | JsonNull
    | Tbl(ref: Ref)
    | Host(id: nat)  // an object of the host program's own
    | Callable       // a function or a thread

  datatype Key = NumberKey(n: Number) | StringKey(s: string) | OddKey

  datatype Entry = Entry(key: Key, val: Value)

  /** The entries in the order of iteration, the length Lua reports, and the mark that an empty table is an array. */
  datatype Table = Table(entries: seq<Entry>, len: nat, asEmptyArray: bool)

  type Heap = map<Ref, Table>

  /** No table refers to one that is not there. */
  ghost predicate Closed(h: Heap) {
    forall r, i :: r in h && 0 <= i < |h[r].entries| && h[r].entries[i].val.Tbl? ==> h[r].entries[i].val.ref in h
  }

  predicate Known(h: Heap, v: Value) {
    v.Tbl? ==> v.ref in h
  }

  /** The tables along one way down from `v`. */
  ghost predicate Trail(h: Heap, v: Value, refs: seq<Ref>)
    decreases |refs|
  {
    refs != [] ==>
      && v == Tbl(refs[0]) && refs[0] in h
      && (|refs| > 1 ==> exists i :: 0 <= i < |h[refs[0]].entries| && Trail(h, h[refs[0]].entries[i].val, refs[1..]))
  }

  /**
   A traversal that starts at `v`, with the tables of `path` above it, meets none of them again and finds each table
   in order.
   */
  ghost predicate Passable(h: Heap, v: Value, path: set<Ref>, ok: Table -> bool)
    requires Closed(h)
    decreases h.Keys - path
  {
    v.Tbl? ==>
      && v.ref in h && v.ref !in path && ok(h[v.ref])
      && forall i :: 0 <= i < |h[v.ref].entries| ==> Passable(h, h[v.ref].entries[i].val, path + {v.ref}, ok)
  }

  /** A way down that is fit to be taken below the tables of `path`. */
  predicate Fine(h: Heap, refs: seq<Ref>, path: set<Ref>, ok: Table -> bool) {
    Distinct(refs) && forall i :: 0 <= i < |refs| ==> refs[i] in h && refs[i] !in path && ok(h[refs[i]])
  }

  lemma {:induction false} PassableTrail(h: Heap, v: Value, path: set<Ref>, ok: Table -> bool, refs: seq<Ref>)
    requires Closed(h) && Passable(h, v, path, ok) && Trail(h, v, refs)
    ensures Fine(h, refs, path, ok)
    decreases |refs|
  {
    if |refs| > 1 {
      var entries := h[refs[0]].entries;
      var i :| 0 <= i < |entries| && Trail(h, entries[i].val, refs[1..]);
      PassableTrail(h, entries[i].val, path + {refs[0]}, ok, refs[1..]);
      assert forall j :: 1 <= j < |refs| ==> refs[j] == refs[1..][j - 1];
    }
  }

  lemma FineBelow(h: Heap, v: Value, i: nat, path: set<Ref>, ok: Table -> bool, refs: seq<Ref>)
    requires Closed(h) && v.Tbl? && v.ref in h && i < |h[v.ref].entries| && Trail(h, h[v.ref].entries[i].val, refs)
    requires forall refs :: Trail(h, v, refs) ==> Fine(h, refs, path, ok)
    ensures Fine(h, refs, path + {v.ref}, ok)
  {
    var longer := [v.ref] + refs;
    assert longer[1..] == refs;
    assert Trail(h, v, longer);
    assert Fine(h, longer, path, ok);
    forall k | 0 <= k < |refs|
      ensures refs[k] == longer[k + 1] && refs[k] != v.ref
    {
      assert longer[0] != longer[k + 1];
    }
    forall j, k | 0 <= j < k < |refs|
      ensures refs[j] != refs[k]
    {
      assert longer[j + 1] != longer[k + 1];
    }
  }

  lemma {:induction false} FineTrails(h: Heap, v: Value, path: set<Ref>, ok: Table -> bool)
    requires Closed(h) && Known(h, v)
    requires forall refs :: Trail(h, v, refs) ==> Fine(h, refs, path, ok)
    ensures Passable(h, v, path, ok)
    decreases h.Keys - path
  {
    if v.Tbl? {
      assert Trail(h, v, [v.ref]);
      assert Fine(h, [v.ref], path, ok);
      assert [v.ref][0] == v.ref;
      var entries := h[v.ref].entries;
      forall i | 0 <= i < |entries|
        ensures Passable(h, entries[i].val, path + {v.ref}, ok)
      {
        forall refs | Trail(h, entries[i].val, refs)
          ensures Fine(h, refs, path + {v.ref}, ok)
        {
          FineBelow(h, v, i, path, ok, refs);
        }
        FineTrails(h, entries[i].val, path + {v.ref}, ok);
      }
    }
  }

  /**
   Remembering the path and nothing else decides exactly whether the graph below is free of cycles and in
   order: sharing without a cycle is accepted, and no cycle is missed.
   */
  lemma PassableIff(h: Heap, v: Value, ok: Table -> bool)
    requires Closed(h) && Known(h, v)
    ensures Passable(h, v, {}, ok) <==> forall refs :: Trail(h, v, refs) ==> Fine(h, refs, {}, ok)
  {
    if Passable(h, v, {}, ok) {
      forall refs | Trail(h, v, refs)
        ensures Fine(h, refs, {}, ok)
      {
        PassableTrail(h, v, {}, ok, refs);
      }
    } else if forall refs :: Trail(h, v, refs) ==> Fine(h, refs, {}, ok) {
      FineTrails(h, v, {}, ok);
      assert false;
    }
  }

  /** Every table on every way down is as asked for. */
  ghost predicate AllBelow(h: Heap, v: Value, ok: Table -> bool) {
    forall refs :: Trail(h, v, refs) ==> forall i :: 0 <= i < |refs| ==> refs[i] in h && ok(h[refs[i]])
  }

  /** So it is if the table is, and all tables below each of its entries. */
  lemma AllBelowIff(h: Heap, v: Value, ok: Table -> bool)
    requires Known(h, v)
    ensures AllBelow(h, v, ok) <==>
      (v.Tbl? ==> ok(h[v.ref]) && forall i :: 0 <= i < |h[v.ref].entries| ==> AllBelow(h, h[v.ref].entries[i].val, ok))
  {
    if v.Tbl? {
      var entries := h[v.ref].entries;
      if AllBelow(h, v, ok) {
        assert Trail(h, v, [v.ref]) && [v.ref][0] == v.ref;
        forall i, refs, k | 0 <= i < |entries| && Trail(h, entries[i].val, refs) && 0 <= k < |refs|
          ensures refs[k] in h && ok(h[refs[k]])
        {
          var longer := [v.ref] + refs;
          assert longer[1..] == refs;
          assert Trail(h, v, longer) && longer[k + 1] == refs[k];
        }
      } else if ok(h[v.ref]) {
        var refs, k :| Trail(h, v, refs) && 0 <= k < |refs| && !(refs[k] in h && ok(h[refs[k]]));
        var i :| 0 <= i < |entries| && Trail(h, entries[i].val, refs[1..]);
        assert refs[1..][k - 1] == refs[k];
        assert !AllBelow(h, entries[i].val, ok);
      }
    }
  }
}
