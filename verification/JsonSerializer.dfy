/**
 Writing a Lua value as JSON (JSONSerializer in internal/luapi/lua-json.go).

 Text is modelled by its lexemes: how strings and finite numbers are spelt is the library's business, and
 reading a spelling gives back what was spelt.
 */
module JsonSerializer {
  import opened Prelude
  import opened GoStrings
  import opened LuaGraph

  datatype Lexeme = Punct(c: char) | Gap(w: string) | Quoted(s: string) | Numeral(x: real) | Word(w: string)

  /** What is written, with the fields of an object in the order they are written in. */
  datatype Json = Literal(lexeme: Lexeme) | Array(items: seq<Json>) | Object(keys: seq<string>, items: seq<Json>)

  datatype Layout = Layout(indent: string, newline: bool)

  // ----- tables -----

  datatype KeyVal = KeyVal(key: string, val: Value)

  datatype Shape = Items(vals: seq<Value>) | Fields(fields: seq<KeyVal>) | Empty(asArray: bool)

  function NumberVals(entries: seq<Entry>): seq<Value> {
    if entries == [] then []
    else
      var e := entries[|entries| - 1];
      NumberVals(entries[..|entries| - 1]) + (if e.key.NumberKey? then [e.val] else [])
  }

  function StringVals(entries: seq<Entry>): seq<KeyVal> {
    if entries == [] then []
    else
      var e := entries[|entries| - 1];
      StringVals(entries[..|entries| - 1]) + (if e.key.StringKey? then [KeyVal(e.key.s, e.val)] else [])
  }

  predicate AnyOdd(entries: seq<Entry>) {
    exists i :: 0 <= i < |entries| && entries[i].key.OddKey?
  }

  /**
   A table is a list, an object or empty; keys of both kinds, of another kind, or more numbers than the length admits
   are errors.
   */
  function Classify(t: Table): Option<Shape> {
    var nums, strs := NumberVals(t.entries), StringVals(t.entries);
    if AnyOdd(t.entries) || |nums| > t.len || (nums != [] && strs != []) then None
    else if nums != [] then Some(Items(nums))
    else if strs != [] then Some(Fields(strs))
    else Some(Empty(t.asEmptyArray))
  }

  // ----- sorting -----

  function Insert(kv: KeyVal, sorted: seq<KeyVal>): (r: seq<KeyVal>)
    ensures |r| == |sorted| + 1
  {
    if sorted == [] || !Lex(sorted[0].key, kv.key) then [kv] + sorted else [sorted[0]] + Insert(kv, sorted[1..])
  }

  /** By key, as text. */
  function SortFields(fields: seq<KeyVal>): (r: seq<KeyVal>)
    ensures |r| == |fields|
  {
    if fields == [] then [] else Insert(fields[0], SortFields(fields[1..]))
  }

  function Keys(fields: seq<KeyVal>): seq<string> {
    seq(|fields|, i requires 0 <= i < |fields| => fields[i].key)
  }

  function Vals(fields: seq<KeyVal>): seq<Value> {
    seq(|fields|, i requires 0 <= i < |fields| => fields[i].val)
  }

  // ----- what is to be written -----

  function Primitive(v: Value): Option<Json> {
    match v
    case JsonNull => Some(Literal(Word("null")))
    case Num(Finite(x)) => Some(Literal(Numeral(x)))
    case Bool(b) => Some(Literal(Word(if b then "true" else "false")))
    case Str(s) => Some(Literal(Quoted(s)))
    case _ => None
  }

  ghost function Unfold(h: Heap, v: Value, path: set<Ref>): (j: Option<Json>)
    requires Closed(h)
    decreases h.Keys - path, 1, 0
  {
    match v
    case Tbl(r) => if r !in h || r in path then None else UnfoldTable(h, r, path + {r})
    case _ => Primitive(v)
  }

  ghost function UnfoldTable(h: Heap, r: Ref, path: set<Ref>): (j: Option<Json>)
    requires Closed(h) && r in h && r in path
    decreases h.Keys - path, 3, 0
  {
    match Classify(h[r])
    case None => None
    case Some(Items(vals)) =>
      (match UnfoldAll(h, vals, path)
       case None => None
       case Some(items) => Some(Array(items)))
    case Some(Fields(fields)) =>
      (match UnfoldAll(h, Vals(SortFields(fields)), path)
       case None => None
       case Some(items) => Some(Object(Keys(SortFields(fields)), items)))
    case Some(Empty(asArray)) => Some(if asArray then Array([]) else Object([], []))
  }

  ghost function UnfoldAll(h: Heap, vals: seq<Value>, path: set<Ref>): (items: Option<seq<Json>>)
    requires Closed(h)
    ensures items.Some? ==> |items.value| == |vals|
    decreases h.Keys - path, 2, |vals|
  {
    if vals == [] then Some([])
    else
      match Unfold(h, vals[0], path)
      case None => None
      case Some(item) =>
        match UnfoldAll(h, vals[1..], path)
        case None => None
        case Some(items) => Some([item] + items)
  }

  // ----- how it is written -----

  /** The start of a list or an object with something in it. */
  function Before(indent: string, o: Layout): seq<Lexeme> {
    if o.newline then [Gap("\n"), Gap(indent + o.indent)] else []
  }

  /** What follows one of its members. */
  function After(last: bool, indent: string, o: Layout): seq<Lexeme> {
    (if last then [] else [Punct(',')])
    + (if o.newline then [Gap("\n")] + (if last then [] else [Gap(o.indent)]) + [Gap(indent)] else [])
  }

  function Label(key: string, o: Layout): seq<Lexeme> {
    [Quoted(key), Punct(':')] + (if o.indent != "" then [Gap(" ")] else [])
  }

  function Render(j: Json, indent: string, o: Layout): seq<Lexeme> {
    match j
    case Literal(lexeme) => [lexeme]
    case Array(items) =>
      if items == [] then [Punct('['), Punct(']')]
      else [Punct('[')] + Before(indent, o) + RenderItems(items, indent, o) + [Punct(']')]
    case Object(keys, items) =>
      if items == [] then [Punct('{'), Punct('}')]
      else [Punct('{')] + Before(indent, o) + RenderFields(keys, items, indent, o) + [Punct('}')]
  }

  function RenderItems(items: seq<Json>, indent: string, o: Layout): seq<Lexeme> {
    if items == [] then []
    else Render(items[0], indent + o.indent, o) + After(|items| == 1, indent, o) + RenderItems(items[1..], indent, o)
  }

  function RenderFields(keys: seq<string>, items: seq<Json>, indent: string, o: Layout): seq<Lexeme>
    decreases items
  {
    if items == [] || keys == [] then []
    else
      Label(keys[0], o) + Render(items[0], indent + o.indent, o) + After(|items| == 1, indent, o)
      + RenderFields(keys[1..], items[1..], indent, o)
  }

  // ----- the serializer -----

  lemma {:induction false} NumbersGrow(entries: seq<Entry>, i: nat)
    requires i <= |entries|
    ensures |NumberVals(entries[..i])| <= |NumberVals(entries)|
    decreases |entries|
  {
    if i < |entries| {
      NumbersGrow(entries[..|entries| - 1], i);
      assert entries[..|entries| - 1][..i] == entries[..i];
    } else {
      assert entries[..i] == entries;
    }
  }

  lemma EntriesOfOneMore(t: Table, i: nat)
    requires i < |t.entries|
    ensures var e := t.entries[i];
      && NumberVals(t.entries[..i + 1]) == NumberVals(t.entries[..i]) + (if e.key.NumberKey? then [e.val] else [])
      && StringVals(t.entries[..i + 1]) == StringVals(t.entries[..i])
        + (if e.key.StringKey? then [KeyVal(e.key.s, e.val)] else [])
    ensures |NumberVals(t.entries[..i + 1])| <= |NumberVals(t.entries)|
  {
    assert t.entries[..i + 1][..i] == t.entries[..i];
    NumbersGrow(t.entries, i + 1);
  }

  /** Sorting a table's entries into list and object, in one pass. */
  method Collect(tbl: Table) returns (shape: Option<Shape>)
    ensures shape == Classify(tbl)
  {
    var arrayEntries: seq<Value>, tableEntries: seq<KeyVal>, errors := [], [], false;
    for i := 0 to |tbl.entries|
      invariant errors ==> Classify(tbl) == None
      invariant !errors ==> !AnyOdd(tbl.entries[..i]) && |NumberVals(tbl.entries[..i])| <= tbl.len
      invariant !errors ==> arrayEntries == NumberVals(tbl.entries[..i])
      invariant tableEntries == StringVals(tbl.entries[..i])
    {
      var e := tbl.entries[i];
      EntriesOfOneMore(tbl, i);
      match e.key {
        case NumberKey(_) =>
          if |arrayEntries| == tbl.len {
            errors := true;
          } else {
            arrayEntries := arrayEntries + [e.val];
          }
        case StringKey(s) => tableEntries := tableEntries + [KeyVal(s, e.val)];
        case OddKey => errors := true;
      }
    }
    assert tbl.entries[..|tbl.entries|] == tbl.entries;
    if errors || (arrayEntries != [] && tableEntries != []) {
      return None;
    }
    return Some(
      if arrayEntries != [] then Items(arrayEntries)
      else if tableEntries != [] then Fields(tableEntries)
      else Empty(tbl.asEmptyArray));
  }

  lemma UnfoldStep(h: Heap, vals: seq<Value>, idx: nat, path: set<Ref>)
    requires Closed(h) && idx < |vals|
    ensures var rest, first, more :=
        UnfoldAll(h, vals[idx..], path), Unfold(h, vals[idx], path), UnfoldAll(h, vals[idx + 1..], path);
      && (rest.Some? <==> first.Some? && more.Some?)
      && (rest.Some? ==> rest.value[0] == first.value && rest.value[1..] == more.value)
  {
    assert vals[idx..][1..] == vals[idx + 1..];
  }

  lemma ItemStep(items: seq<Json>, indent: string, o: Layout, so: seq<Lexeme>, sb: seq<Lexeme>)
    requires items != []
    requires sb == so + Render(items[0], indent + o.indent, o) + After(|items| == 1, indent, o)
    ensures sb + RenderItems(items[1..], indent, o) == so + RenderItems(items, indent, o)
  {
  }

  lemma RegroupAll<T>(a: seq<T>, b: seq<T>, c: seq<T>, d: seq<T>, e: seq<T>)
    ensures a + b + c + d + e == a + (b + c + d + e)
  {
  }

  lemma FieldStep(
    keys: seq<string>, idx: nat, items: seq<Json>, indent: string, o: Layout, so: seq<Lexeme>, sb: seq<Lexeme>)
    requires items != [] && idx < |keys|
    requires sb == so + Label(keys[idx], o) + Render(items[0], indent + o.indent, o) + After(|items| == 1, indent, o)
    ensures sb + RenderFields(keys[idx + 1..], items[1..], indent, o) ==
      so + RenderFields(keys[idx..], items, indent, o)
  {
    assert keys[idx..][1..] == keys[idx + 1..];
    var l, r, a := Label(keys[idx], o), Render(items[0], indent + o.indent, o), After(|items| == 1, indent, o);
    var more := RenderFields(keys[idx + 1..], items[1..], indent, o);
    RegroupAll(so, l, r, a, more);
  }

  lemma Regroup<T>(a: seq<T>, b: seq<T>, c: seq<T>)
    ensures a + b + c == a + (b + c)
  {
  }

  lemma Regroup3<T>(a: seq<T>, b: seq<T>, c: seq<T>, d: seq<T>)
    ensures a + b + c + d == a + (b + c + d)
  {
  }

  lemma {:induction false} InsertKeeps(kv: KeyVal, sorted: seq<KeyVal>)
    ensures forall i :: 0 <= i < |Insert(kv, sorted)| ==> Insert(kv, sorted)[i] == kv || Insert(kv, sorted)[i] in sorted
  {
    if sorted != [] && Lex(sorted[0].key, kv.key) {
      InsertKeeps(kv, sorted[1..]);
    }
  }

  lemma {:induction false} SortingKeeps(fields: seq<KeyVal>)
    ensures forall i :: 0 <= i < |SortFields(fields)| ==> SortFields(fields)[i] in fields
  {
    if fields != [] {
      SortingKeeps(fields[1..]);
      InsertKeeps(fields[0], SortFields(fields[1..]));
    }
  }

  lemma {:induction false} ValsAreKnown(h: Heap, entries: seq<Entry>)
    requires forall i :: 0 <= i < |entries| ==> Known(h, entries[i].val)
    ensures forall i :: 0 <= i < |NumberVals(entries)| ==> Known(h, NumberVals(entries)[i])
    ensures forall i :: 0 <= i < |StringVals(entries)| ==> Known(h, StringVals(entries)[i].val)
    decreases |entries|
  {
    if entries != [] {
      ValsAreKnown(h, entries[..|entries| - 1]);
    }
  }

  lemma ChildrenAreKnown(h: Heap, r: Ref)
    requires Closed(h) && r in h
    ensures forall i :: 0 <= i < |NumberVals(h[r].entries)| ==> Known(h, NumberVals(h[r].entries)[i])
    ensures forall i :: 0 <= i < |StringVals(h[r].entries)| ==> Known(h, StringVals(h[r].entries)[i].val)
  {
    ValsAreKnown(h, h[r].entries);
  }

  class JSONSerializer {
    const h: Heap
    const o: Layout
    var sb: seq<Lexeme>
    var visited: set<Ref>

    constructor (h: Heap, indent: string)
      ensures this.h == h && o == Layout(indent, indent != "") && sb == [] && visited == {}
    {
      this.h, this.o := h, Layout(indent, indent != "");
      sb, visited := [], {};
    }

    /** The whole text, if the value can be written; the builder and the path set are left empty either way. */
    method SerializeLValue(val: Value) returns (text: Option<seq<Lexeme>>)
      requires Closed(h) && Known(h, val) && sb == []
      modifies this
      ensures sb == [] && visited == {}
      ensures match Unfold(h, val, {})
        case None => text == None
        case Some(j) => text == Some(Render(j, "", o))
    {
      visited := {};
      var ok := SerializeValue(val, "");
      assert ok ==> sb == Render(Unfold(h, val, {}).value, "", o);
      text := if ok then Some(sb) else None;
      sb, visited := [], {};
    }

    method SerializePrimitive(val: Value) returns (ok: bool)
      requires !val.Tbl?
      modifies `sb
      ensures ok <==> Primitive(val).Some?
      ensures sb == if ok then old(sb) + Render(Primitive(val).value, "", o) else old(sb)
    {
      match val {
        case JsonNull => sb := sb + [Word("null")];
        case Num(n) =>
          if n.NotFinite? {
            return false;
          }
          sb := sb + [Numeral(n.x)];
        case Bool(b) => sb := sb + [Word(if b then "true" else "false")];
        case Str(s) => sb := sb + [Quoted(s)];
        case _ => return false;
      }
      ok := true;
    }

    /** The path set is as before on every exit; the text is what the unfolding says, if there is one. */
    method SerializeValue(val: Value, indent: string) returns (ok: bool)
      requires Closed(h) && Known(h, val) && visited <= h.Keys
      modifies this
      ensures visited == old(visited)
      ensures ok <==> Unfold(h, val, visited).Some?
      ensures ok ==> sb == old(sb) + Render(Unfold(h, val, visited).value, indent, o)
      decreases h.Keys - visited, 1, 0
    {
      match val {
        case Tbl(r) =>
          if r in visited {
            return false;
          }
          visited := visited + {r};
          ok := SerializeTable(r, indent);
          visited := visited - {r};
          assert visited == old(visited);
        case _ =>
          ok := SerializePrimitive(val);
      }
    }

    method SerializeArray(vals: seq<Value>, indent: string) returns (ok: bool)
      requires Closed(h) && vals != [] && visited <= h.Keys && forall i :: 0 <= i < |vals| ==> Known(h, vals[i])
      modifies this
      ensures visited == old(visited)
      ensures ok <==> UnfoldAll(h, vals, visited).Some?
      ensures ok ==> sb == old(sb) + Render(Array(UnfoldAll(h, vals, visited).value), indent, o)
      decreases h.Keys - visited, 3, 0
    {
      sb := sb + [Punct('[')];
      if o.newline {
        sb := sb + [Gap("\n"), Gap(indent + o.indent)];
      }
      ghost var all, head := UnfoldAll(h, vals, visited), sb;
      assert head == old(sb) + ([Punct('[')] + Before(indent, o));
      ghost var rest := all;
      assert vals[0..] == vals;
      for idx := 0 to |vals|
        invariant visited == old(visited)
        invariant rest == UnfoldAll(h, vals[idx..], visited) && (all.Some? <==> rest.Some?)
        invariant all.Some? ==> sb + RenderItems(rest.value, indent, o) == head + RenderItems(all.value, indent, o)
      {
        ghost var so := sb;
        UnfoldStep(h, vals, idx, visited);
        ok := SerializeMember(vals[idx], idx == |vals| - 1, indent);
        if !ok {
          return;
        }
        if all.Some? {
          ItemStep(rest.value, indent, o, so, sb);
        }
        rest := UnfoldAll(h, vals[idx + 1..], visited);
      }
      sb := sb + [Punct(']')];
      if all.Some? {
        Regroup3(old(sb), [Punct('[')] + Before(indent, o), RenderItems(all.value, indent, o), [Punct(']')]);
      }
      ok := true;
    }

    /** One member of a list or an object, and what follows it. */
    method SerializeMember(val: Value, last: bool, indent: string) returns (ok: bool)
      requires Closed(h) && Known(h, val) && visited <= h.Keys
      modifies this
      ensures visited == old(visited)
      ensures ok <==> Unfold(h, val, visited).Some?
      ensures ok ==>
        sb == old(sb) + Render(Unfold(h, val, visited).value, indent + o.indent, o) + After(last, indent, o)
      decreases h.Keys - visited, 2, 0
    {
      ok := SerializeValue(val, indent + o.indent);
      if !ok {
        return;
      }
      ghost var value := sb;
      ghost var comma: seq<Lexeme> := if last then [] else [Punct(',')];
      ghost var tail: seq<Lexeme> :=
        if o.newline then [Gap("\n")] + (if last then [] else [Gap(o.indent)]) + [Gap(indent)] else [];
      if !last {
        sb := sb + [Punct(',')];
      }
      if o.newline {
        sb := sb + ([Gap("\n")] + (if last then [] else [Gap(o.indent)]) + [Gap(indent)]);
      }
      assert sb == value + comma + tail;
      Regroup(value, comma, tail);
    }

    method SerializeObject(entries: seq<KeyVal>, indent: string) returns (ok: bool)
      requires Closed(h) && entries != [] && visited <= h.Keys
      requires forall i :: 0 <= i < |entries| ==> Known(h, entries[i].val)
      modifies this
      ensures visited == old(visited)
      ensures var fields := SortFields(entries);
        && (ok <==> UnfoldAll(h, Vals(fields), visited).Some?)
        && (ok ==> sb == old(sb) + Render(Object(Keys(fields), UnfoldAll(h, Vals(fields), visited).value), indent, o))
      decreases h.Keys - visited, 3, 0
    {
      var fields := SortFields(entries);
      SortingKeeps(entries);
      sb := sb + [Punct('{')];
      if o.newline {
        sb := sb + [Gap("\n"), Gap(indent + o.indent)];
      }
      ghost var keys, vals := Keys(fields), Vals(fields);
      ghost var all, head := UnfoldAll(h, vals, visited), sb;
      assert head == old(sb) + ([Punct('{')] + Before(indent, o));
      ghost var rest := all;
      assert vals[0..] == vals && keys[0..] == keys;
      for idx := 0 to |fields|
        invariant visited == old(visited)
        invariant rest == UnfoldAll(h, vals[idx..], visited) && (all.Some? <==> rest.Some?)
        invariant all.Some? ==>
          sb + RenderFields(keys[idx..], rest.value, indent, o) == head + RenderFields(keys, all.value, indent, o)
      {
        ghost var so := sb;
        UnfoldStep(h, vals, idx, visited);
        sb := sb + ([Quoted(fields[idx].key), Punct(':')] + (if o.indent != "" then [Gap(" ")] else []));
        ok := SerializeMember(fields[idx].val, idx == |fields| - 1, indent);
        if !ok {
          return;
        }
        if all.Some? {
          FieldStep(keys, idx, rest.value, indent, o, so, sb);
        }
        rest := UnfoldAll(h, vals[idx + 1..], visited);
      }
      sb := sb + [Punct('}')];
      if all.Some? {
        Regroup3(old(sb), [Punct('{')] + Before(indent, o), RenderFields(keys, all.value, indent, o), [Punct('}')]);
      }
      ok := true;
    }

    method SerializeTable(r: Ref, indent: string) returns (ok: bool)
      requires Closed(h) && r in h && r in visited && visited <= h.Keys
      modifies this
      ensures visited == old(visited)
      ensures ok <==> UnfoldTable(h, r, visited).Some?
      ensures ok ==> sb == old(sb) + Render(UnfoldTable(h, r, visited).value, indent, o)
      decreases h.Keys - visited, 4, 0
    {
      var shape := Collect(h[r]);
      ChildrenAreKnown(h, r);
      match shape {
        case None => ok := false;
        case Some(Items(vals)) => ok := SerializeArray(vals, indent);
        case Some(Fields(fields)) => ok := SerializeObject(fields, indent);
        case Some(Empty(asArray)) =>
          sb := sb + (if asArray then [Punct('['), Punct(']')] else [Punct('{'), Punct('}')]);
          ok := true;
      }
    }
  }
}
