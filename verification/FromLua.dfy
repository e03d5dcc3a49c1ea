/** Taking Lua values over as values of the host program (FromLuaValue in internal/luapi/lua-goapi.go). */
module FromLua {
  import opened Prelude
  import opened LuaGraph

  /** `Opaque` is what an object of the host program's own holds. */
  datatype Any =
    | Null
    | Boolean(b: bool)
    | Float(n: Number)
    | Text(s: string)
    | Slice(items: seq<Any>)
    | Map(fields: map<string, Any>)
    | Opaque(id: nat)

  function Plain(v: Value): Any
    requires !v.Tbl?
  {
    match v
    case Nil => Null
    case JsonNull => Null
    case Bool(b) => Boolean(b)
    case Num(n) => Float(n)
    case Str(s) => Text(s)
    case Host(id) => Opaque(id)
    case Callable => Null
  }

  ghost function Convert(h: Heap, v: Value, path: set<Ref>): Option<Any>
    requires Closed(h)
    decreases h.Keys - path, 1, 0
  {
    match v
    case Tbl(r) =>
      if r !in h || r in path then None
      else if h[r].len > 0 then
        (match ConvertList(h, h[r].entries, path + {r})
         case Some(items) => Some(Slice(items))
         case None => None)
      else
        (match ConvertFields(h, h[r].entries, path + {r}, map[])
         case Some(fields) => Some(Map(fields))
         case None => None)
    case _ => Some(Plain(v))
  }

  /** A table with a length has numbers for keys, and nothing else. */
  ghost function ConvertList(h: Heap, entries: seq<Entry>, path: set<Ref>): Option<seq<Any>>
    requires Closed(h)
    decreases h.Keys - path, 2, |entries|
  {
    if entries == [] then Some([])
    else if !entries[0].key.NumberKey? then None
    else
      match Convert(h, entries[0].val, path)
      case None => None
      case Some(item) =>
        match ConvertList(h, entries[1..], path)
        case None => None
        case Some(items) => Some([item] + items)
  }

  /** A table without a length has strings for keys, and nothing else. */
  ghost function ConvertFields(
    h: Heap, entries: seq<Entry>, path: set<Ref>, fields: map<string, Any>): Option<map<string, Any>>
    requires Closed(h)
    decreases h.Keys - path, 2, |entries|
  {
    if entries == [] then Some(fields)
    else if !entries[0].key.StringKey? then None
    else
      match Convert(h, entries[0].val, path)
      case None => None
      case Some(value) => ConvertFields(h, entries[1..], path, fields[entries[0].key.s := value])
  }

  class Converter {
    const h: Heap
    var visited: set<Ref>

    constructor (h: Heap)
      ensures this.h == h && visited == {}
    {
      this.h, visited := h, {};
    }

    /** The path set is as before on every exit. */
    method FromLuaValue(value: Value) returns (res: Option<Any>)
      requires Closed(h) && Known(h, value)
      modifies this
      ensures visited == old(visited) && res == Convert(h, value, visited)
      decreases h.Keys - visited, 1
    {
      match value {
        case Tbl(r) =>
          if r in visited {
            return None;
          }
          visited := visited + {r};
          if h[r].len > 0 {
            var items := FromList(r);
            res := if items.Some? then Some(Slice(items.value)) else None;
          } else {
            var fields := FromFields(r);
            res := if fields.Some? then Some(Map(fields.value)) else None;
          }
          visited := visited - {r};
          assert visited == old(visited);
        case _ =>
          res := Some(Plain(value));
      }
    }

    method FromList(r: Ref) returns (res: Option<seq<Any>>)
      requires Closed(h) && r in h
      modifies this
      ensures visited == old(visited) && res == ConvertList(h, h[r].entries, visited)
      decreases h.Keys - visited, 2
    {
      var entries, items := h[r].entries, [];
      ghost var all := ConvertList(h, entries, visited);
      assert entries[0..] == entries;
      for i := 0 to |entries|
        invariant visited == old(visited)
        invariant var rest := ConvertList(h, entries[i..], visited);
          (all.Some? <==> rest.Some?) && (all.Some? ==> all.value == items + rest.value)
      {
        assert entries[i..][1..] == entries[i + 1..];
        if !entries[i].key.NumberKey? {
          return None;
        }
        assert Known(h, h[r].entries[i].val);
        var entry := FromLuaValue(entries[i].val);
        if entry.None? {
          return None;
        }
        items := items + [entry.value];
      }
      assert entries[|entries|..] == [] && items + [] == items;
      return Some(items);
    }

    method FromFields(r: Ref) returns (res: Option<map<string, Any>>)
      requires Closed(h) && r in h
      modifies this
      ensures visited == old(visited) && res == ConvertFields(h, h[r].entries, visited, map[])
      decreases h.Keys - visited, 2
    {
      var entries := h[r].entries;
      var fields: map<string, Any> := map[];
      assert entries[0..] == entries;
      for i := 0 to |entries|
        invariant visited == old(visited)
        invariant ConvertFields(h, entries, visited, map[]) == ConvertFields(h, entries[i..], visited, fields)
      {
        assert entries[i..][1..] == entries[i + 1..];
        if !entries[i].key.StringKey? {
          return None;
        }
        assert Known(h, h[r].entries[i].val);
        var entry := FromLuaValue(entries[i].val);
        if entry.None? {
          return None;
        }
        fields := fields[entries[i].key.s := entry.value];
      }
      return Some(fields);
    }
  }

  // ----- which values are taken over -----

  predicate Uniform(t: Table) {
    forall i :: 0 <= i < |t.entries| ==> if t.len > 0 then t.entries[i].key.NumberKey? else t.entries[i].key.StringKey?
  }

  lemma {:induction false} ConvertListIff(h: Heap, entries: seq<Entry>, path: set<Ref>)
    requires Closed(h)
    ensures ConvertList(h, entries, path).Some? <==>
      forall i :: 0 <= i < |entries| ==> entries[i].key.NumberKey? && Convert(h, entries[i].val, path).Some?
    decreases |entries|
  {
    if entries != [] {
      ConvertListIff(h, entries[1..], path);
      assert forall i :: 1 <= i < |entries| ==> entries[i] == entries[1..][i - 1];
    }
  }

  lemma {:induction false} ConvertFieldsIff(h: Heap, entries: seq<Entry>, path: set<Ref>, fields: map<string, Any>)
    requires Closed(h)
    ensures ConvertFields(h, entries, path, fields).Some? <==>
      forall i :: 0 <= i < |entries| ==> entries[i].key.StringKey? && Convert(h, entries[i].val, path).Some?
    decreases |entries|
  {
    if entries != [] {
      if entries[0].key.StringKey? && Convert(h, entries[0].val, path).Some? {
        ConvertFieldsIff(h, entries[1..], path, fields[entries[0].key.s := Convert(h, entries[0].val, path).value]);
      }
      assert forall i :: 1 <= i < |entries| ==> entries[i] == entries[1..][i - 1];
    }
  }

  lemma {:induction false} ConvertIff(h: Heap, v: Value, path: set<Ref>)
    requires Closed(h)
    ensures Convert(h, v, path).Some? <==> Passable(h, v, path, Uniform)
    decreases h.Keys - path
  {
    if v.Tbl? && v.ref in h && v.ref !in path {
      var t, below := h[v.ref], path + {v.ref};
      ConvertListIff(h, t.entries, below);
      ConvertFieldsIff(h, t.entries, below, map[]);
      forall i | 0 <= i < |t.entries|
        ensures Convert(h, t.entries[i].val, below).Some? <==> Passable(h, t.entries[i].val, below, Uniform)
      {
        ConvertIff(h, t.entries[i].val, below);
      }
    }
  }

  /** A value is taken over exactly if no way down meets a table twice and each table's keys are of one kind. */
  lemma TakenOverIff(h: Heap, v: Value)
    requires Closed(h) && Known(h, v)
    ensures Convert(h, v, {}).Some? <==> forall refs :: Trail(h, v, refs) ==> Fine(h, refs, {}, Uniform)
  {
    ConvertIff(h, v, {});
    PassableIff(h, v, Uniform);
  }

  // ----- what they are taken over as -----

  /** No later entry has the same key; a Lua table has none, so this is each of its entries. */
  predicate LastOfKey(entries: seq<Entry>, i: nat) {
    i < |entries| && forall j :: i < j < |entries| ==> entries[j].key != entries[i].key
  }

  predicate HasKey(entries: seq<Entry>, k: string) {
    exists i :: 0 <= i < |entries| && entries[i].key == StringKey(k)
  }

  /**
   A table with a length is a list of what its entries are, in the order of iteration; one without is a map with what
   they are under their keys.  Nil, functions and the JSON null are all nothing.
   */
  ghost predicate Mirrors(h: Heap, v: Value, a: Any)
    decreases a
  {
    match v
    case Tbl(r) =>
      r in h &&
      var entries := h[r].entries;
      if h[r].len > 0 then
        a.Slice? && |a.items| == |entries| && forall i :: 0 <= i < |entries| ==> Mirrors(h, entries[i].val, a.items[i])
      else
        && a.Map? && (forall k :: k in a.fields <==> HasKey(entries, k))
        && forall i: nat, k :: LastOfKey(entries, i) && k in a.fields && entries[i].key == StringKey(k) ==>
             Mirrors(h, entries[i].val, a.fields[k])
    case Nil => a == Null
    case JsonNull => a == Null
    case Callable => a == Null
    case Bool(b) => a == Boolean(b)
    case Num(n) => a == Float(n)
    case Str(s) => a == Text(s)
    case Host(id) => a == Opaque(id)
  }

  lemma {:induction false} ItemsAre(h: Heap, entries: seq<Entry>, path: set<Ref>, i: nat)
    requires Closed(h) && ConvertList(h, entries, path).Some? && i < |entries|
    ensures var items := ConvertList(h, entries, path).value;
      |items| == |entries| && Convert(h, entries[i].val, path) == Some(items[i])
    decreases |entries|
  {
    if i > 0 {
      ItemsAre(h, entries[1..], path, i - 1);
    } else if |entries| > 1 {
      ItemsAre(h, entries[1..], path, 0);
    }
  }

  lemma {:induction false} OtherKeysStay(
    h: Heap, entries: seq<Entry>, path: set<Ref>, fields: map<string, Any>, k: string)
    requires Closed(h) && ConvertFields(h, entries, path, fields).Some? && !HasKey(entries, k)
    ensures var res := ConvertFields(h, entries, path, fields).value;
      (k in res <==> k in fields) && (k in res ==> res[k] == fields[k])
    decreases |entries|
  {
    if entries != [] {
      var value := Convert(h, entries[0].val, path).value;
      assert entries[0].key != StringKey(k);
      assert forall i :: 0 <= i < |entries| - 1 ==> entries[1..][i] == entries[i + 1];
      OtherKeysStay(h, entries[1..], path, fields[entries[0].key.s := value], k);
    }
  }

  lemma {:induction false} FieldIs(
    h: Heap, entries: seq<Entry>, path: set<Ref>, fields: map<string, Any>, i: nat, k: string)
    requires Closed(h) && ConvertFields(h, entries, path, fields).Some?
    requires LastOfKey(entries, i) && entries[i].key == StringKey(k)
    ensures var res := ConvertFields(h, entries, path, fields).value;
      k in res && Convert(h, entries[i].val, path) == Some(res[k])
    decreases |entries|
  {
    var value, rest := Convert(h, entries[0].val, path).value, entries[1..];
    assert forall j :: 0 <= j < |rest| ==> rest[j] == entries[j + 1];
    var fields' := fields[entries[0].key.s := value];
    if i > 0 {
      FieldIs(h, rest, path, fields', i - 1, k);
    } else {
      OtherKeysStay(h, rest, path, fields', k);
    }
  }

  lemma {:induction false} SomeLast(entries: seq<Entry>, i: nat) returns (l: nat)
    requires i < |entries|
    ensures LastOfKey(entries, l) && entries[l].key == entries[i].key
    decreases |entries| - i
  {
    l := i;
    if j :| i < j < |entries| && entries[j].key == entries[i].key {
      l := SomeLast(entries, j);
    }
  }

  lemma KeysOfFields(h: Heap, entries: seq<Entry>, path: set<Ref>, k: string)
    requires Closed(h) && ConvertFields(h, entries, path, map[]).Some?
    ensures k in ConvertFields(h, entries, path, map[]).value <==> HasKey(entries, k)
  {
    if i :| 0 <= i < |entries| && entries[i].key == StringKey(k) {
      var l := SomeLast(entries, i);
      FieldIs(h, entries, path, map[], l, k);
    } else {
      OtherKeysStay(h, entries, path, map[], k);
    }
  }

  /** What is taken over mirrors the Lua value all the way down. */
  lemma {:induction false} ConvertMirrors(h: Heap, v: Value, path: set<Ref>)
    requires Closed(h) && Convert(h, v, path).Some?
    ensures Mirrors(h, v, Convert(h, v, path).value)
    decreases h.Keys - path, 1
  {
    if v.Tbl? {
      if h[v.ref].len > 0 {
        ListMirrors(h, v.ref, path);
      } else {
        FieldsMirror(h, v.ref, path);
      }
    }
  }

  lemma {:induction false} ListMirrors(h: Heap, r: Ref, path: set<Ref>)
    requires Closed(h) && Convert(h, Tbl(r), path).Some? && h[r].len > 0
    ensures Mirrors(h, Tbl(r), Convert(h, Tbl(r), path).value)
    decreases h.Keys - path, 0
  {
    var entries, below, a := h[r].entries, path + {r}, Convert(h, Tbl(r), path).value;
    if entries != [] {
      ItemsAre(h, entries, below, 0);
    }
    forall i | 0 <= i < |entries|
      ensures |a.items| == |entries| && Mirrors(h, entries[i].val, a.items[i])
    {
      ItemsAre(h, entries, below, i);
      ConvertMirrors(h, entries[i].val, below);
    }
  }

  lemma {:induction false} FieldsMirror(h: Heap, r: Ref, path: set<Ref>)
    requires Closed(h) && Convert(h, Tbl(r), path).Some? && h[r].len == 0
    ensures Mirrors(h, Tbl(r), Convert(h, Tbl(r), path).value)
    decreases h.Keys - path, 0
  {
    var entries, below, a := h[r].entries, path + {r}, Convert(h, Tbl(r), path).value;
    forall k
      ensures k in a.fields <==> HasKey(entries, k)
    {
      KeysOfFields(h, entries, below, k);
    }
    forall i: nat, k | LastOfKey(entries, i) && k in a.fields && entries[i].key == StringKey(k)
      ensures Mirrors(h, entries[i].val, a.fields[k])
    {
      FieldIs(h, entries, below, map[], i, k);
      ConvertMirrors(h, entries[i].val, below);
    }
  }
}
