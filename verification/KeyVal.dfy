/**
 One `a.b.c=value` from the command line (parseKeyVal in internal/config/parser.go): tables on the way are
 followed or created, and a table at the end is merged with the value.
 */
module KeyVal {
  import opened Prelude
  import opened EnvAlgebra
  import opened Envs

  /** The tables of the decoded value. */
  ghost function Handed(decoded: Option<Val>): set<Table>
    reads if decoded.Some? && decoded.value.Ref? then {decoded.value.t} else {}
  {
    if decoded.Some? && decoded.value.Ref? then decoded.value.t.Repr else {}
  }

  /** The value meant by a text: what it decodes to as JSON, or else the text itself. */
  ghost function Meant(text: string, decoded: Option<Val>): Value<Val>
    reads if decoded.Some? && decoded.value.Ref? then {decoded.value.t} else {}
  {
    if decoded.Some? then ViewOf(decoded.value) else Leaf(Text(text))
  }

  /** The names between the dots of a key. */
  function Split(key: string): (path: seq<string>)
    ensures path != []
    ensures forall i :: 0 <= i < |path| ==> '.' !in path[i]
  {
    if key == [] then [""]
    else
      var rest := Split(key[1..]);
      if key[0] == '.' then [""] + rest else [[key[0]] + rest[0]] + rest[1..]
  }

  function Join(path: seq<string>): string
    requires path != []
  {
    if |path| == 1 then path[0] else path[0] + "." + Join(path[1..])
  }

  /** A key is its names with dots in between, so every path is meant by one key. */
  lemma {:induction false} SplitIsUndone(key: string)
    ensures Join(Split(key)) == key
  {
    if key != [] {
      SplitIsUndone(key[1..]);
      var rest := Split(key[1..]);
      if key[0] == '.' {
        assert ([""] + rest)[1..] == rest;
      } else {
        var path := [[key[0]] + rest[0]] + rest[1..];
        assert path[1..] == rest[1..];
      }
    }
  }

  lemma {:induction false} JoinIsUndone(path: seq<string>)
    requires path != [] && forall i :: 0 <= i < |path| ==> '.' !in path[i]
    ensures Split(Join(path)) == path
    decreases |path|, |path[0]|
  {
    var name, s := path[0], Join(path);
    if name == [] {
      if |path| > 1 {
        assert s[1..] == Join(path[1..]);
        JoinIsUndone(path[1..]);
      }
    } else {
      var path' := [name[1..]] + path[1..];
      assert path'[1..] == path[1..];
      assert s[0] == name[0] && s[1..] == Join(path');
      JoinIsUndone(path');
      assert name == [name[0]] + name[1..];
      assert path == [[name[0]] + path'[0]] + path'[1..];
    }
  }

  /** At the end of the path. */
  method Store(target: Table, key: string, text: string, decoded: Option<Val>)
    requires target.Valid() && target.Tree()
    requires decoded.Some? && decoded.value.Ref? ==>
      var t := decoded.value.t; t.Valid() && t.Tree() && t.Repr !! target.Repr
    modifies target.Repr
    ensures target.Valid() && target.Tree()
    ensures fresh(target.Repr - old(target.Repr) - old(Handed(decoded)))
    ensures target.View == Assign(old(target.View), [key], old(Meant(text, decoded)))
  {
    match decoded {
      case None => target.Put(key, Text(text));
      case Some(maybeValue) =>
        if maybeValue.Ref? && key in target.entries && target.entries[key].Ref? {
          var existing := target.entries[key].t;
          DeepMerge(existing, maybeValue.t);
          assert target.OpenAt(key);
          target.Close(key);
        } else {
          target.Put(key, maybeValue);
        }
    }
  }

  /** The table found under `k`, or an empty one. */
  function Here<T>(v: Value<T>, k: string): (r: Value<T>)
    requires v.Dict?
    ensures r.Dict?
  {
    if k in v.m && v.m[k].Dict? then v.m[k] else Dict(map[])
  }

  lemma AssignBelow(view: Value<Val>, path: seq<string>, next: Value<Val>, v: Value<Val>)
    requires view.Dict? && |path| > 1 && next == Here(view, path[0])
    ensures Dict(view.m[path[0] := next][path[0] := Assign(next, path[1..], v)]) == Assign(view, path, v)
  {
  }

  /** The table found under `key`, or a new one put there. */
  method Enter(target: Table, key: string) returns (next: Table)
    requires target.Valid() && target.Tree()
    modifies target
    ensures target.Valid() && target.Tree() && fresh(target.Repr - old(target.Repr))
    ensures key in target.entries && target.entries[key] == Ref(next)
    ensures var view := old(target.View);
      && next.View == Here(view, key)
      && target.View == Dict(view.m[key := next.View])
  {
    if key in target.entries && target.entries[key].Ref? {
      next := target.entries[key].t;
      assert target.View.m == target.View.m[key := next.View];
    } else {
      next := new Table();
      target.Put(key, Ref(next));
    }
  }

  /** The tables on the way to the end of the path, followed or created. */
  method FollowPath(target: Table, path: seq<string>, text: string, decoded: Option<Val>)
    requires target.Valid() && target.Tree() && path != []
    requires decoded.Some? && decoded.value.Ref? ==>
      var t := decoded.value.t; t.Valid() && t.Tree() && t.Repr !! target.Repr
    modifies target.Repr
    ensures target.Valid() && target.Tree()
    ensures fresh(target.Repr - old(target.Repr) - old(Handed(decoded)))
    ensures target.View == Assign(old(target.View), path, old(Meant(text, decoded)))
    decreases |path|
  {
    if |path| == 1 {
      Store(target, path[0], text, decoded);
      assert path == [path[0]];
    } else {
      ghost var view := target.View;
      var next := Enter(target, path[0]);
      AssignBelow(view, path, next.View, Meant(text, decoded));
      FollowBelow(target, next, path, text, decoded);
    }
  }

  /** The rest of the path, from the table `next` on. */
  method FollowBelow(target: Table, next: Table, path: seq<string>, text: string, decoded: Option<Val>)
    requires target.Valid() && target.Tree() && |path| > 1
    requires path[0] in target.entries && target.entries[path[0]] == Ref(next) && next.View.Dict?
    requires decoded.Some? && decoded.value.Ref? ==>
      var t := decoded.value.t; t.Valid() && t.Tree() && t.Repr !! target.Repr
    modifies target.Repr
    ensures target.Valid() && target.Tree()
    ensures fresh(target.Repr - old(target.Repr) - old(Handed(decoded)))
    ensures target.View ==
      Dict(old(target.View).m[path[0] := Assign(old(next.View), path[1..], old(Meant(text, decoded)))])
    decreases |path|, 0
  {
    FollowPath(next, path[1..], text, decoded);
    assert target.OpenAt(path[0]);
    target.Close(path[0]);
  }

  /** Whatever the key and the value, this is merging in the nest of tables that the key spells out. */
  method ParseKeyVal(target: Table, key: string, text: string, decoded: Option<Val>)
    requires target.Valid() && target.Tree()
    requires decoded.Some? && decoded.value.Ref? ==>
      var t := decoded.value.t; t.Valid() && t.Tree() && t.Repr !! target.Repr
    modifies target.Repr
    ensures target.Valid() && target.Tree()
    ensures fresh(target.Repr - old(target.Repr) - old(Handed(decoded)))
    ensures target.View == Merge(old(target.View), Nest(Split(key), old(Meant(text, decoded))))
    ensures decoded.None? ==> Lookup(target.View, Split(key)) == Some(Leaf(Text(text)))
    ensures decoded.Some? && !decoded.value.Ref? ==> Lookup(target.View, Split(key)) == Some(Leaf(decoded.value))
  {
    AssignIsMergingANest(target.View, Split(key), Meant(text, decoded));
    AssignedIsFound(target.View, Split(key), Meant(text, decoded));
    FollowPath(target, Split(key), text, decoded);
  }

  // ----- isolation -----

  /** Merging in a table, or one key-and-value with what its text decodes to. */
  datatype Edit = MergeIn(source: Table) | Assigning(key: string, text: string, doc: Option<Value<Val>>)

  /** Leaves are leaves. */
  ghost predicate Plain(doc: Value<Val>) {
    match doc
    case Leaf(v) => !v.Ref?
    case Dict(m) => forall k :: k in m ==> Plain(m[k])
  }

  ghost predicate Possible(e: Edit)
    reads if e.MergeIn? then {e.source} + e.source.Repr else {}
  {
    match e
    case MergeIn(source) => source.Valid()
    case Assigning(_, _, doc) => doc.Some? ==> Plain(doc.value)
  }

  /** The table that is merged in by an edit, whichever of the two it is. */
  ghost function Added(e: Edit): (v: Value<Val>)
    requires Possible(e)
    reads if e.MergeIn? then {e.source} + e.source.Repr else {}
    ensures v.Dict?
  {
    match e
    case MergeIn(source) => source.View
    case Assigning(key, text, doc) => Nest(Split(key), if doc.Some? then doc.value else Leaf(Text(text)))
  }

  ghost function MergeAll(v: Value<Val>, added: seq<Value<Val>>): (r: Value<Val>)
    requires v.Dict? && forall i :: 0 <= i < |added| ==> added[i].Dict?
    ensures r.Dict?
  {
    if added == [] then v else Merge(MergeAll(v, added[..|added| - 1]), added[|added| - 1])
  }

  /** Decoding allocates tables of its own. */
  method Decode(doc: Value<Val>) returns (v: Val)
    requires Plain(doc)
    ensures v.Ref? ==> v.t.Valid() && v.t.Tree() && fresh(v.t.Repr)
    ensures ViewOf(v) == doc
  {
    match doc {
      case Leaf(leaf) =>
        v := leaf;
      case Dict(m) =>
        var table := new Table();
        var todo := m.Keys;
        ghost var done := {};
        while todo != {}
          invariant todo !! done && todo + done == m.Keys
          invariant table.Valid() && table.Tree() && fresh(table.Repr)
          invariant table.View == Only(doc, done)
        {
          var k :| k in todo;
          var entry := Decode(m[k]);
          OneMoreKey(doc, done, k);
          table.Put(k, entry);
          todo, done := todo - {k}, done + {k};
        }
        AllKeys(doc);
        v := Ref(table);
    }
  }

  method Apply(target: Table, e: Edit)
    requires target.Valid() && target.Tree() && Possible(e)
    requires e.MergeIn? ==> target.Repr !! e.source.Repr
    modifies target.Repr
    ensures target.Valid() && target.Tree() && fresh(target.Repr - old(target.Repr))
    ensures target.View == Merge(old(target.View), old(Added(e)))
  {
    match e {
      case MergeIn(source) =>
        DeepMerge(target, source);
      case Assigning(key, text, doc) =>
        var decoded: Option<Val> := None;
        if doc.Some? {
          var v := Decode(doc.value);
          decoded := Some(v);
        }
        ParseKeyVal(target, key, text, decoded);
    }
  }

  lemma OneMoreMerge(v: Value<Val>, added: seq<Value<Val>>, i: nat)
    requires v.Dict? && i < |added| && forall j :: 0 <= j < |added| ==> added[j].Dict?
    ensures MergeAll(v, added[..i + 1]) == Merge(MergeAll(v, added[..i]), added[i])
  {
    assert added[..i + 1][..i] == added[..i];
  }

  /**
   A copy can be edited at will.  Nothing that was there before is written to, neither the source's own
   tables nor the lists it shares with its copy, and the copy ends up as the source with everything merged in.
   */
  method CopyAndEdit(src: Table, edits: seq<Edit>, ghost added: seq<Value<Val>>) returns (dst: Table)
    requires src.Valid() && |added| == |edits|
    requires forall i :: 0 <= i < |edits| ==> Possible(edits[i]) && added[i] == Added(edits[i])
    ensures dst.Valid() && dst.Tree() && fresh(dst.Repr)
    ensures (forall i :: 0 <= i < |added| ==> added[i].Dict?) && dst.View == MergeAll(src.View, added)
  {
    dst := DeepCopy(src);
    assert forall i :: 0 <= i < |added| ==> added[i].Dict?;
    for i := 0 to |edits|
      invariant dst.Valid() && dst.Tree() && fresh(dst.Repr)
      invariant dst.View == MergeAll(src.View, added[..i])
    {
      OneMoreMerge(src.View, added, i);
      Apply(dst, edits[i]);
    }
    assert added[..|edits|] == added;
  }
}
