/**
 Environments as the program holds them (internal/envs/envs.go, parseKeyVal in internal/config/parser.go):
 nested tables on the heap, copied and merged in place.

 Only tables that hang under keys of tables are ever written to.  A list is shared as it is, tables in it
 included, so it counts as a leaf.
 */
module Envs {
  import opened EnvAlgebra

  datatype Val = Scalar(n: int) | Text(s: string) | List(elems: seq<Val>) | Ref(t: Table)

  ghost function ViewOf(v: Val): Value<Val>
    reads if v.Ref? then {v.t} else {}
  {
    if v.Ref? then v.t.View else Leaf(v)
  }

  class Table {
    var entries: map<string, Val>
    /** At least the tables that can be reached from here under keys alone. */
    ghost var Repr: set<Table>
    /** What this table and those below it hold. */
    ghost var View: Value<Val>

    ghost predicate Valid()
      reads this, Repr
      decreases Repr
    {
      && this in Repr
      && View.Dict? && View.m.Keys == entries.Keys
      && forall k :: k in entries ==> match entries[k]
           case Ref(c) => c in Repr && c.Repr <= Repr && this !in c.Repr && c.Valid() && View.m[k] == c.View
           case v => View.m[k] == Leaf(v)
    }

    /** Without sharing: no table can be reached along two paths. */
    ghost predicate Tree()
      reads this, Repr
      requires Valid()
      decreases Repr
    {
      && (forall k :: k in entries && entries[k].Ref? ==> entries[k].t.Tree())
      && forall k, l :: k in entries && entries[k].Ref? && l in entries && entries[l].Ref? && k != l ==>
           entries[k].t.Repr !! entries[l].t.Repr
    }

    /** Everything but what `Repr` and `View` have to say about the table under `k`. */
    ghost predicate OpenAt(k: string)
      reads this, Repr, Below(k)
    {
      && this in Repr && k in entries && entries[k].Ref? && this !in entries[k].t.Repr
      && View.Dict? && k in View.m && View.m.Keys == entries.Keys
      && (forall l :: l in entries && l != k ==> match entries[l]
           case Ref(c) => c in Repr && c.Repr <= Repr && this !in c.Repr && c.Valid() && c.Tree()
             && View.m[l] == c.View && c.Repr !! entries[k].t.Repr
           case v => View.m[l] == Leaf(v))
      && forall l, m ::
           (l in entries && entries[l].Ref? && m in entries && entries[m].Ref? && l != m && l != k && m != k) ==>
           entries[l].t.Repr !! entries[m].t.Repr
    }

    ghost function Below(k: string): (ts: set<Table>)
      reads this
    {
      if k in entries && entries[k].Ref? then {entries[k].t} else {}
    }

    /** Taking note of what is now below `k`. */
    ghost method Close(k: string)
      requires OpenAt(k) && entries[k].t.Valid() && entries[k].t.Tree()
      modifies `Repr, `View
      ensures Valid() && Tree()
      ensures Repr == old(Repr) + entries[k].t.Repr
      ensures View == Dict(old(View).m[k := entries[k].t.View])
    {
      Repr := Repr + entries[k].t.Repr;
      View := Dict(View.m[k := entries[k].t.View]);
      assert Valid();
    }

    constructor ()
      ensures Valid() && Tree() && Repr == {this} && View == Dict(map[])
    {
      entries, Repr, View := map[], {this}, Dict(map[]);
    }

    /** Storing a value that is not a table, or a table that has nothing in common with this one. */
    method Put(k: string, v: Val)
      requires Valid() && Tree()
      requires v.Ref? ==> v.t.Valid() && v.t.Tree() && v.t.Repr !! Repr
      modifies this
      ensures Valid() && Tree()
      ensures entries == old(entries)[k := v]
      ensures Repr == old(Repr) + (if v.Ref? then v.t.Repr else {})
      ensures View == Dict(old(View).m[k := ViewOf(v)])
    {
      if v.Ref? {
        PutTable(k, v.t);
      } else {
        PutLeaf(k, v);
      }
    }

    method PutTable(k: string, t: Table)
      requires Valid() && Tree() && t.Valid() && t.Tree() && t.Repr !! Repr
      modifies this
      ensures Valid() && Tree()
      ensures entries == old(entries)[k := Ref(t)] && Repr == old(Repr) + t.Repr
        && View == Dict(old(View).m[k := t.View])
    {
      entries := entries[k := Ref(t)];
      View := Dict(View.m[k := t.View]);
      Close(k);
    }

    method PutLeaf(k: string, v: Val)
      requires Valid() && Tree() && !v.Ref?
      modifies `entries, `View
      ensures Valid() && Tree()
      ensures entries == old(entries)[k := v] && View == Dict(old(View).m[k := Leaf(v)])
    {
      entries := entries[k := v];
      View := Dict(View.m[k := Leaf(v)]);
    }
  }

  /** The part of a table that is held under some keys. */
  function Only<T>(v: Value<T>, keys: set<string>): (r: Value<T>)
    requires v.Dict?
    ensures r.Dict?
  {
    Dict(map k | k in v.m && k in keys :: v.m[k])
  }

  lemma OneMoreKey<T>(v: Value<T>, keys: set<string>, k: string)
    requires v.Dict? && k in v.m
    ensures Dict(Only(v, keys).m[k := v.m[k]]) == Only(v, keys + {k})
  {
  }

  lemma AllKeys<T>(v: Value<T>)
    requires v.Dict?
    ensures Only(v, v.m.Keys) == v
  {
  }

  method DeepCopy(src: Table) returns (dst: Table)
    requires src.Valid()
    ensures dst.Valid() && dst.Tree() && fresh(dst.Repr)
    ensures dst.View == src.View
    decreases src.Repr, 2
  {
    dst := new Table();
    var todo := src.entries.Keys;
    ghost var copied := {};
    while todo != {}
      invariant todo !! copied && todo + copied == src.entries.Keys
      invariant dst.Valid() && dst.Tree() && fresh(dst.Repr)
      invariant dst.View == Only(src.View, copied)
    {
      var k :| k in todo;
      CopyEntry(src, dst, k);
      OneMoreKey(src.View, copied, k);
      todo, copied := todo - {k}, copied + {k};
    }
    AllKeys(src.View);
  }

  method CopyEntry(src: Table, dst: Table, k: string)
    requires src.Valid() && k in src.entries && dst.Valid() && dst.Tree() && src.Repr !! dst.Repr
    modifies dst
    ensures dst.Valid() && dst.Tree() && fresh(dst.Repr - old(dst.Repr))
    ensures dst.View == Dict(old(dst.View).m[k := src.View.m[k]])
    decreases src.Repr, 1
  {
    var v := CopyOf(src, k);
    dst.Put(k, v);
  }

  /** What is stored for an entry that is copied: a table is copied in turn, anything else is taken as it is. */
  method CopyOf(src: Table, k: string) returns (v: Val)
    requires src.Valid() && k in src.entries
    ensures v.Ref? ==> v.t.Valid() && v.t.Tree() && fresh(v.t.Repr)
    ensures ViewOf(v) == src.View.m[k]
    decreases src.Repr, 0
  {
    match src.entries[k]
    case Ref(t) =>
      var c := DeepCopy(t);
      v := Ref(c);
    case _ =>
      v := src.entries[k];
  }

  /** What merging leaves under a key of `b`. */
  function Combined<T>(a: Value<T>, b: Value<T>, k: string): Value<T>
    requires a.Dict? && b.Dict? && k in b.m
  {
    if k in a.m && a.m[k].Dict? && b.m[k].Dict? then Merge(a.m[k], b.m[k]) else b.m[k]
  }

  /** `a` with some of the keys of `b` merged in. */
  function Partly<T>(a: Value<T>, b: Value<T>, keys: set<string>): (r: Value<T>)
    requires a.Dict? && b.Dict? && keys <= b.m.Keys
    ensures r.Dict?
  {
    Dict(map k | k in a.m.Keys + keys :: if k in keys then Combined(a, b, k) else a.m[k])
  }

  lemma MergingOneMore<T>(a: Value<T>, b: Value<T>, keys: set<string>, k: string)
    requires a.Dict? && b.Dict? && keys <= b.m.Keys && k in b.m && k !in keys
    ensures Combined(Partly(a, b, keys), b, k) == Combined(a, b, k)
    ensures Dict(Partly(a, b, keys).m[k := Combined(a, b, k)]) == Partly(a, b, keys + {k})
  {
    assert Partly(a, b, keys).m[k := Combined(a, b, k)] == Partly(a, b, keys + {k}).m;
  }

  lemma MergingAll<T>(a: Value<T>, b: Value<T>)
    requires a.Dict? && b.Dict?
    ensures Partly(a, b, {}) == a && Partly(a, b, b.m.Keys) == Merge(a, b)
  {
    assert Partly(a, b, {}).m == a.m;
    assert Partly(a, b, b.m.Keys).m == Merge(a, b).m;
  }

  method DeepMerge(mut: Table?, immut: Table?)
    requires mut != null ==> mut.Valid() && mut.Tree()
    requires immut != null ==> immut.Valid()
    requires mut != null && immut != null ==> mut.Repr !! immut.Repr
    modifies if mut != null then mut.Repr else {}
    ensures mut != null ==> mut.Valid() && mut.Tree() && fresh(mut.Repr - old(mut.Repr))
    ensures mut != null ==> mut.View == if immut == null then old(mut.View) else Merge(old(mut.View), immut.View)
    ensures immut != null ==> immut.Valid()
    decreases if immut != null then immut.Repr else {}, 2
  {
    if mut == null || immut == null {
      return;
    }
    var todo := immut.entries.Keys;
    ghost var merged := {};
    MergingAll(mut.View, immut.View);
    while todo != {}
      invariant todo !! merged && todo + merged == immut.entries.Keys
      invariant immut.Valid() && immut.entries == old(immut.entries)
      invariant mut.Valid() && mut.Tree() && fresh(mut.Repr - old(mut.Repr))
      invariant mut.View == Partly(old(mut.View), immut.View, merged)
    {
      var k :| k in todo;
      MergingOneMore(old(mut.View), immut.View, merged, k);
      MergeEntry(mut, immut, k);
      todo, merged := todo - {k}, merged + {k};
    }
  }

  /** Merging two tables that are held under the same key. */
  method MergeTables(mut: Table, immut: Table, k: string)
    requires mut.Valid() && mut.Tree() && immut.Valid() && mut.Repr !! immut.Repr
    requires k in immut.entries && immut.entries[k].Ref? && k in mut.entries && mut.entries[k].Ref?
    modifies mut.Repr
    ensures mut.Valid() && mut.Tree() && fresh(mut.Repr - old(mut.Repr))
    ensures mut.View == Dict(old(mut.View).m[k := Combined(old(mut.View), immut.View, k)])
    decreases immut.Repr, 0
  {
    var next := mut.entries[k].t;
    DeepMerge(next, immut.entries[k].t);
    assert mut.OpenAt(k);
    mut.Close(k);
  }

  /** Merging in what is held under one key. */
  method MergeEntry(mut: Table, immut: Table, k: string)
    requires mut.Valid() && mut.Tree() && immut.Valid() && mut.Repr !! immut.Repr && k in immut.entries
    modifies mut.Repr
    ensures mut.Valid() && mut.Tree() && fresh(mut.Repr - old(mut.Repr))
    ensures mut.View == Dict(old(mut.View).m[k := Combined(old(mut.View), immut.View, k)])
    decreases immut.Repr, 1
  {
    if immut.entries[k].Ref? && k in mut.entries && mut.entries[k].Ref? {
      MergeTables(mut, immut, k);
    } else {
      var v := CopyOf(immut, k);
      mut.Put(k, v);
    }
  }
}
