/** What is written as JSON is read back, and when it is the same Lua value (internal/luapi/lua-json.go). */
module JsonRoundTrip {
  import opened Prelude
  import opened GoStrings
  import opened LuaGraph
  import opened JsonSerializer
  import opened JsonParser
  import opened JsonWritable

  /** What is written, as a Lua value. */
  function TreeOf(j: Json): Tree {
    match j
    case Literal(l) => (match ParseLiteral(l) case Some(t) => t case None => TNull)
    case Array(items) => TTable(TreesOf(items), map[])
    case Object(keys, items) => TTable([], FieldsOf(keys, items, map[]))
  }

  function TreesOf(items: seq<Json>): (ts: seq<Tree>)
    ensures |ts| == |items|
  {
    if items == [] then [] else [TreeOf(items[0])] + TreesOf(items[1..])
  }

  function FieldsOf(keys: seq<string>, items: seq<Json>, fields: map<string, Tree>): map<string, Tree>
    decreases items
  {
    if keys == [] || items == [] then fields else FieldsOf(keys[1..], items[1..], fields[keys[0] := TreeOf(items[0])])
  }

  /** Literals are literals, and fields have names. */
  ghost predicate Proper(j: Json) {
    match j
    case Literal(l) => ParseLiteral(l).Some?
    case Array(items) => forall i :: 0 <= i < |items| ==> Proper(items[i])
    case Object(keys, items) => |keys| == |items| && forall i :: 0 <= i < |items| ==> Proper(items[i])
  }

  predicate Blank(o: Layout) {
    IsBlank(o.indent)
  }

  predicate Gaps(ls: seq<Lexeme>) {
    forall i :: 0 <= i < |ls| ==> ls[i].Gap? && IsBlank(ls[i].w)
  }

  lemma {:induction false} SkipGaps(gaps: seq<Lexeme>, rest: seq<Lexeme>, s: TokenState, stack: seq<TokenState>)
    requires Gaps(gaps)
    ensures Token(Dec(gaps + rest, s, stack)) == Token(Dec(rest, s, stack))
    decreases |gaps|
  {
    if gaps == [] {
      assert gaps + rest == rest;
    } else {
      assert (gaps + rest)[0] == gaps[0] && (gaps + rest)[1..] == gaps[1..] + rest;
      SkipGaps(gaps[1..], rest, s, stack);
    }
  }

  /** Gaps after a comma or a colon. */
  lemma SkipPunct(c: char, gaps: seq<Lexeme>, rest: seq<Lexeme>, s: TokenState, stack: seq<TokenState>, s': TokenState)
    requires Gaps(gaps)
    requires (c == ',' && s.ArrayComma? && s'.ArrayValue?) || (c == ',' && s.ObjectComma? && s'.ObjectKey?)
      || (c == ':' && s.ObjectColon? && s'.ObjectValue?)
    ensures Token(Dec([Punct(c)] + gaps + rest, s, stack)) == Token(Dec(rest, s', stack))
  {
    assert ([Punct(c)] + gaps + rest)[1..] == gaps + rest;
    SkipGaps(gaps, rest, s', stack);
  }

  /** Reading begins with a token that leads to this value and leaves the rest. */
  ghost predicate Reads(d: Dec, tree: Tree, d': Dec) {
    Token(d).Got? && ReadValue(Token(d).tok, Token(d).dec) == Some(Parsed(tree, d'))
      && Token(d).tok != Delim(']') && Token(d).tok != Delim('}')
  }

  lemma {:induction false} ReadsRendered(
    j: Json, indent: string, o: Layout, s: TokenState, stack: seq<TokenState>, k: seq<Lexeme>)
    requires Proper(j) && Blank(o) && IsBlank(indent) && ValueAllowed(s)
    ensures Reads(Dec(Render(j, indent, o) + k, s, stack), TreeOf(j), Dec(k, ValueEnd(s), stack))
    decreases j, 0
  {
    var d := Dec(Render(j, indent, o) + k, s, stack);
    match j
    case Literal(l) =>
      assert d.rest[0] == l && d.rest[1..] == k;
    case Array(items) => ReadsArray(items, indent, o, s, stack, k);
    case Object(keys, items) => ReadsObject(keys, items, indent, o, s, stack, k);
  }

  lemma {:induction false} ReadsArray(
    items: seq<Json>, indent: string, o: Layout, s: TokenState, stack: seq<TokenState>, k: seq<Lexeme>)
    requires (forall i :: 0 <= i < |items| ==> Proper(items[i])) && Blank(o) && IsBlank(indent) && ValueAllowed(s)
    ensures Reads(Dec(Render(Array(items), indent, o) + k, s, stack), TTable(TreesOf(items), map[]),
      Dec(k, ValueEnd(s), stack))
    decreases items, 2
  {
    var d := Dec(Render(Array(items), indent, o) + k, s, stack);
    var stack' := stack + [s];
    assert stack'[..|stack|] == stack;
    if items == [] {
      assert d.rest == [Punct('['), Punct(']')] + k;
      assert d.rest[1..] == [Punct(']')] + k && d.rest[1..][1..] == k;
    } else {
      var body := RenderItems(items, indent, o) + [Punct(']')] + k;
      assert d.rest == [Punct('[')] + (Before(indent, o) + body);
      assert d.rest[1..] == Before(indent, o) + body;
      SkipGaps(Before(indent, o), body, ArrayStart, stack');
      ReadsItems(items, [], indent, o, ArrayStart, stack', k);
      assert [] + TreesOf(items) == TreesOf(items);
    }
  }

  lemma OneItem(d: Dec, list: seq<Tree>, tree: Tree, d': Dec)
    requires Reads(d, tree, d')
    ensures ReadArray(d, list) == ReadArray(d', list + [tree])
  {
  }

  lemma AfterIsComma(indent: string, o: Layout, rest: seq<Lexeme>)
    requires Blank(o) && IsBlank(indent)
    ensures Gaps(After(false, indent, o)[1..])
    ensures After(false, indent, o) + rest == [Punct(',')] + After(false, indent, o)[1..] + rest
  {
  }

  /** After a member, a comma and the next one; or the end. */
  lemma NextItem(indent: string, o: Layout, rest: seq<Lexeme>, stack: seq<TokenState>, list: seq<Tree>)
    requires Blank(o) && IsBlank(indent)
    ensures ReadArray(Dec(After(false, indent, o) + rest, ArrayComma, stack), list) ==
      ReadArray(Dec(rest, ArrayValue, stack), list)
  {
    AfterIsComma(indent, o, rest);
    SkipPunct(',', After(false, indent, o)[1..], rest, ArrayComma, stack, ArrayValue);
  }

  lemma LastItem(indent: string, o: Layout, k: seq<Lexeme>, stack: seq<TokenState>, list: seq<Tree>)
    requires Blank(o) && IsBlank(indent) && stack != []
    ensures ReadArray(Dec(After(true, indent, o) + ([Punct(']')] + k), ArrayComma, stack), list)
         == Some(Parsed(TTable(list, map[]), Dec(k, ValueEnd(stack[|stack| - 1]), stack[..|stack| - 1])))
  {
    SkipGaps(After(true, indent, o), [Punct(']')] + k, ArrayComma, stack);
    assert ([Punct(']')] + k)[1..] == k;
  }

  lemma ItemsSplit(items: seq<Json>, indent: string, o: Layout, k: seq<Lexeme>)
    requires items != []
    ensures RenderItems(items, indent, o) + [Punct(']')] + k
      == Render(items[0], indent + o.indent, o)
         + (After(|items| == 1, indent, o) + (RenderItems(items[1..], indent, o) + [Punct(']')] + k))
  {
  }

  lemma {:induction false} ReadsItems(items: seq<Json>, list: seq<Tree>, indent: string, o: Layout,
                                      s: TokenState, stack: seq<TokenState>, k: seq<Lexeme>)
    requires (forall i :: 0 <= i < |items| ==> Proper(items[i])) && Blank(o) && IsBlank(indent) && items != []
    requires (s.ArrayStart? || s.ArrayValue?) && stack != []
    ensures ReadArray(Dec(RenderItems(items, indent, o) + [Punct(']')] + k, s, stack), list)
         == Some(Parsed(TTable(list + TreesOf(items), map[]),
           Dec(k, ValueEnd(stack[|stack| - 1]), stack[..|stack| - 1])))
    decreases items, 1
  {
    var first, last := Render(items[0], indent + o.indent, o), |items| == 1;
    var rest := RenderItems(items[1..], indent, o) + [Punct(']')] + k;
    var k0 := After(last, indent, o) + rest;
    ItemsSplit(items, indent, o, k);
    var list' := list + [TreeOf(items[0])];
    ReadsRendered(items[0], indent + o.indent, o, s, stack, k0);
    OneItem(Dec(first + k0, s, stack), list, TreeOf(items[0]), Dec(k0, ArrayComma, stack));
    assert list' + TreesOf(items[1..]) == list + TreesOf(items);
    if last {
      assert rest == [Punct(']')] + k && list' + TreesOf(items[1..]) == list';
      LastItem(indent, o, k, stack, list');
    } else {
      NextItem(indent, o, rest, stack, list');
      ReadsItems(items[1..], list', indent, o, ArrayValue, stack, k);
    }
  }

  lemma {:induction false} ReadsObject(
    keys: seq<string>, items: seq<Json>, indent: string, o: Layout,
    s: TokenState, stack: seq<TokenState>, k: seq<Lexeme>)
    requires |keys| == |items| && (forall i :: 0 <= i < |items| ==> Proper(items[i]))
    requires Blank(o) && IsBlank(indent) && ValueAllowed(s)
    ensures Reads(Dec(Render(Object(keys, items), indent, o) + k, s, stack),
                  TTable([], FieldsOf(keys, items, map[])), Dec(k, ValueEnd(s), stack))
    decreases items, 2
  {
    var d := Dec(Render(Object(keys, items), indent, o) + k, s, stack);
    var stack' := stack + [s];
    assert stack'[..|stack|] == stack;
    if items == [] {
      assert d.rest == [Punct('{'), Punct('}')] + k;
      assert d.rest[1..] == [Punct('}')] + k && d.rest[1..][1..] == k;
    } else {
      var body := RenderFields(keys, items, indent, o) + [Punct('}')] + k;
      assert d.rest == [Punct('{')] + (Before(indent, o) + body);
      assert d.rest[1..] == Before(indent, o) + body;
      SkipGaps(Before(indent, o), body, ObjectStart, stack');
      ReadsFields(keys, items, map[], indent, o, ObjectStart, stack', k);
    }
  }

  lemma OneField(d: Dec, key: string, fields: map<string, Tree>, d1: Dec, tree: Tree, d2: Dec)
    requires Token(d) == Got(Lit(Quoted(key)), d1) && Reads(d1, tree, d2)
    ensures ReadObject(d, fields) == ReadObject(d2, fields[key := tree])
  {
  }

  lemma ReadsLabel(key: string, o: Layout, value: seq<Lexeme>, s: TokenState, stack: seq<TokenState>)
    requires s.ObjectStart? || s.ObjectKey?
    ensures var d := Dec(Label(key, o) + value, s, stack);
      && Token(d).Got? && Token(d).tok == Lit(Quoted(key))
      && Token(Token(d).dec) == Token(Dec(value, ObjectValue, stack))
  {
    var space: seq<Lexeme> := if o.indent != "" then [Gap(" ")] else [];
    var d := Dec(Label(key, o) + value, s, stack);
    assert d.rest == [Quoted(key)] + ([Punct(':')] + space + value);
    assert d.rest[1..] == [Punct(':')] + space + value;
    SkipPunct(':', space, value, ObjectColon, stack, ObjectValue);
  }

  lemma NextField(indent: string, o: Layout, rest: seq<Lexeme>, stack: seq<TokenState>, fields: map<string, Tree>)
    requires Blank(o) && IsBlank(indent)
    ensures ReadObject(Dec(After(false, indent, o) + rest, ObjectComma, stack), fields) ==
      ReadObject(Dec(rest, ObjectKey, stack), fields)
  {
    AfterIsComma(indent, o, rest);
    SkipPunct(',', After(false, indent, o)[1..], rest, ObjectComma, stack, ObjectKey);
  }

  lemma LastField(indent: string, o: Layout, k: seq<Lexeme>, stack: seq<TokenState>, fields: map<string, Tree>)
    requires Blank(o) && IsBlank(indent) && stack != []
    ensures ReadObject(Dec(After(true, indent, o) + ([Punct('}')] + k), ObjectComma, stack), fields)
         == Some(Parsed(TTable([], fields), Dec(k, ValueEnd(stack[|stack| - 1]), stack[..|stack| - 1])))
  {
    SkipGaps(After(true, indent, o), [Punct('}')] + k, ObjectComma, stack);
    assert ([Punct('}')] + k)[1..] == k;
  }

  lemma Regrouped<T>(a: seq<T>, b: seq<T>, c: seq<T>, d: seq<T>, e: seq<T>, f: seq<T>)
    ensures a + b + c + d + e + f == a + (b + (c + (d + e + f)))
  {
  }

  lemma FieldsSplit(keys: seq<string>, items: seq<Json>, indent: string, o: Layout, k: seq<Lexeme>)
    requires |keys| == |items| && items != []
    ensures RenderFields(keys, items, indent, o) + [Punct('}')] + k
      == Label(keys[0], o) + (Render(items[0], indent + o.indent, o)
           + (After(|items| == 1, indent, o) + (RenderFields(keys[1..], items[1..], indent, o) + [Punct('}')] + k)))
  {
    Regrouped(Label(keys[0], o), Render(items[0], indent + o.indent, o), After(|items| == 1, indent, o),
              RenderFields(keys[1..], items[1..], indent, o), [Punct('}')], k);
  }

  lemma {:induction false} ReadsFields(
    keys: seq<string>, items: seq<Json>, fields: map<string, Tree>, indent: string, o: Layout,
    s: TokenState, stack: seq<TokenState>, k: seq<Lexeme>)
    requires |keys| == |items| && (forall i :: 0 <= i < |items| ==> Proper(items[i])) && items != []
    requires Blank(o) && IsBlank(indent) && (s.ObjectStart? || s.ObjectKey?) && stack != []
    ensures ReadObject(Dec(RenderFields(keys, items, indent, o) + [Punct('}')] + k, s, stack), fields)
         == Some(Parsed(TTable([], FieldsOf(keys, items, fields)),
           Dec(k, ValueEnd(stack[|stack| - 1]), stack[..|stack| - 1])))
    decreases items, 1
  {
    var value, last := Render(items[0], indent + o.indent, o), |items| == 1;
    var rest := RenderFields(keys[1..], items[1..], indent, o) + [Punct('}')] + k;
    var k0 := After(last, indent, o) + rest;
    var d := Dec(Label(keys[0], o) + (value + k0), s, stack);
    FieldsSplit(keys, items, indent, o, k);
    var fields' := fields[keys[0] := TreeOf(items[0])];
    ReadsLabel(keys[0], o, value + k0, s, stack);
    ReadsRendered(items[0], indent + o.indent, o, ObjectValue, stack, k0);
    OneField(d, keys[0], fields, Token(d).dec, TreeOf(items[0]), Dec(k0, ObjectComma, stack));
    if last {
      assert rest == [Punct('}')] + k;
      LastField(indent, o, k, stack, fields');
    } else {
      NextField(indent, o, rest, stack, fields');
      ReadsFields(keys[1..], items[1..], fields', indent, o, ObjectKey, stack, k);
    }
  }

  /** Whatever blank indentation it is laid out with, the text is read as what was written. */
  lemma TextIsReadBack(j: Json, o: Layout)
    requires Proper(j) && Blank(o)
    ensures ReadAll(Render(j, "", o)) == Some(TreeOf(j))
  {
    ReadsRendered(j, "", o, TopValue, [], []);
    assert Render(j, "", o) + [] == Render(j, "", o);
  }

  // ----- back to the Lua value -----

  /**
   The tree says what the value holds: its fields by name, and what it has under numbers in order, whatever the
   numbers are.
   */
  ghost predicate Denotes(h: Heap, v: Value, t: Tree)
    decreases t
  {
    match v
    case JsonNull => t == TNull
    case Bool(b) => t == TBool(b)
    case Num(n) => n.Finite? && t == TNum(n.x)
    case Str(s) => t == TStr(s)
    case Tbl(r) =>
      && r in h && t.TTable?
      && var nums, strs := NumberVals(h[r].entries), StringVals(h[r].entries);
         && |nums| == |t.list| && (forall i :: 0 <= i < |t.list| ==> Denotes(h, nums[i], t.list[i]))
         && (forall i :: 0 <= i < |strs| ==> strs[i].key in t.fields && Denotes(h, strs[i].val, t.fields[strs[i].key]))
         && (forall k :: k in t.fields ==> exists i :: 0 <= i < |strs| && strs[i].key == k)
    case _ => false
  }

  lemma {:induction false} FieldsHave(keys: seq<string>, items: seq<Json>, fields: map<string, Tree>)
    requires |keys| == |items| && Distinct(keys)
    ensures var all := FieldsOf(keys, items, fields);
      && (forall k :: k in all <==> k in fields || k in keys)
      && (forall k :: k in fields && k !in keys ==> all[k] == fields[k])
      && (forall i :: 0 <= i < |keys| ==> all[keys[i]] == TreeOf(items[i]))
    decreases |keys|
  {
    if keys != [] {
      FieldsHave(keys[1..], items[1..], fields[keys[0] := TreeOf(items[0])]);
      assert keys == [keys[0]] + keys[1..] && keys[0] !in keys[1..];
      assert forall i :: 1 <= i < |keys| ==> keys[i] == keys[1..][i - 1] && items[i] == items[1..][i - 1];
    }
  }

  lemma SortedKeysDiffer(fields: seq<KeyVal>)
    requires DistinctKeys(fields)
    ensures Distinct(Keys(SortFields(fields)))
  {
    SortingAscends(fields);
    var sorted := SortFields(fields);
    forall i, j | 0 <= i < j < |sorted|
      ensures sorted[i].key != sorted[j].key
    {
      LexTotal(sorted[i].key, sorted[j].key);
    }
  }

  lemma {:induction false} TreesAre(items: seq<Json>, i: nat)
    requires i < |items|
    ensures TreesOf(items)[i] == TreeOf(items[i])
  {
    if i > 0 {
      TreesAre(items[1..], i - 1);
    }
  }

  lemma ListDenotes(h: Heap, r: Ref, items: seq<Json>)
    requires r in h && StringVals(h[r].entries) == [] && |items| == |NumberVals(h[r].entries)|
    requires forall i :: 0 <= i < |items| ==> Denotes(h, NumberVals(h[r].entries)[i], TreeOf(items[i]))
    ensures Denotes(h, Tbl(r), TreeOf(Array(items)))
  {
    forall i | 0 <= i < |items|
      ensures Denotes(h, NumberVals(h[r].entries)[i], TreesOf(items)[i])
    {
      TreesAre(items, i);
    }
  }

  lemma FieldsDenote(h: Heap, strs: seq<KeyVal>, sorted: seq<KeyVal>, items: seq<Json>, fields: map<string, Tree>)
    requires |items| == |sorted| && forall x :: x in sorted <==> x in strs
    requires forall i :: 0 <= i < |items| ==> Denotes(h, sorted[i].val, TreeOf(items[i]))
    requires forall i :: 0 <= i < |items| ==> sorted[i].key in fields && fields[sorted[i].key] == TreeOf(items[i])
    requires forall k :: k in fields ==> exists i :: 0 <= i < |sorted| && sorted[i].key == k
    ensures forall i :: 0 <= i < |strs| ==> strs[i].key in fields && Denotes(h, strs[i].val, fields[strs[i].key])
    ensures forall k :: k in fields ==> exists i :: 0 <= i < |strs| && strs[i].key == k
  {
    forall i | 0 <= i < |strs|
      ensures strs[i].key in fields && Denotes(h, strs[i].val, fields[strs[i].key])
    {
      assert strs[i] in sorted;
      var j :| 0 <= j < |sorted| && sorted[j] == strs[i];
    }
    forall k | k in fields
      ensures exists i :: 0 <= i < |strs| && strs[i].key == k
    {
      var j :| 0 <= j < |sorted| && sorted[j].key == k;
      assert sorted[j] in strs;
    }
  }

  lemma {:induction false} SortedFieldsHave(strs: seq<KeyVal>, items: seq<Json>)
    requires DistinctKeys(strs) && |items| == |strs|
    ensures var sorted := SortFields(strs); var fields := FieldsOf(Keys(sorted), items, map[]);
      && (forall i :: 0 <= i < |items| ==> sorted[i].key in fields && fields[sorted[i].key] == TreeOf(items[i]))
      && (forall k :: k in fields ==> exists i :: 0 <= i < |sorted| && sorted[i].key == k)
  {
    var sorted := SortFields(strs);
    var keys := Keys(sorted);
    SortedKeysDiffer(strs);
    FieldsHave(keys, items, map[]);
    forall i | 0 <= i < |items|
      ensures sorted[i].key in FieldsOf(keys, items, map[])
        && FieldsOf(keys, items, map[])[sorted[i].key] == TreeOf(items[i])
    {
      assert keys[i] in keys;
    }
    forall k | k in FieldsOf(keys, items, map[])
      ensures exists i :: 0 <= i < |sorted| && sorted[i].key == k
    {
      var i :| 0 <= i < |keys| && keys[i] == k;
      assert sorted[i].key == k;
    }
  }

  lemma ObjectDenotes(h: Heap, r: Ref, items: seq<Json>)
    requires r in h && NumberVals(h[r].entries) == []
    requires var strs := StringVals(h[r].entries);
      && DistinctKeys(strs) && |items| == |strs|
      && forall i :: 0 <= i < |items| ==> Denotes(h, SortFields(strs)[i].val, TreeOf(items[i]))
    ensures Denotes(h, Tbl(r), TreeOf(Object(Keys(SortFields(StringVals(h[r].entries))), items)))
  {
    var strs := StringVals(h[r].entries);
    var sorted := SortFields(strs);
    SortedFieldsHave(strs, items);
    SortingHas(strs);
    FieldsDenote(h, strs, sorted, items, FieldsOf(Keys(sorted), items, map[]));
  }

  lemma {:induction false} UnfoldDenotes(h: Heap, v: Value, path: set<Ref>)
    requires LuaHeap(h) && Unfold(h, v, path).Some?
    ensures Proper(Unfold(h, v, path).value) && Denotes(h, v, TreeOf(Unfold(h, v, path).value))
    decreases h.Keys - path, 1, 0
  {
    if v.Tbl? {
      var r, below := v.ref, path + {v.ref};
      var t := h[r];
      match Classify(t).value {
        case Items(vals) =>
          UnfoldAllDenotes(h, vals, below);
          ListDenotes(h, r, UnfoldAll(h, vals, below).value);
        case Fields(fields) =>
          var sorted := SortFields(fields);
          UnfoldAllDenotes(h, Vals(sorted), below);
          assert forall i :: 0 <= i < |sorted| ==> Vals(sorted)[i] == sorted[i].val;
          ObjectDenotes(h, r, UnfoldAll(h, Vals(sorted), below).value);
        case Empty(_) =>
      }
    }
  }

  lemma {:induction false} UnfoldAllDenotes(h: Heap, vals: seq<Value>, path: set<Ref>)
    requires LuaHeap(h) && UnfoldAll(h, vals, path).Some?
    ensures var items := UnfoldAll(h, vals, path).value;
      forall i :: 0 <= i < |vals| ==> Proper(items[i]) && Denotes(h, vals[i], TreeOf(items[i]))
    decreases h.Keys - path, 2, |vals|
  {
    if vals != [] {
      UnfoldDenotes(h, vals[0], path);
      UnfoldAllDenotes(h, vals[1..], path);
      var items := UnfoldAll(h, vals, path).value;
      assert forall i :: 1 <= i < |vals| ==> vals[i] == vals[1..][i - 1] && items[i] == items[1..][i - 1];
    }
  }

  // ----- the keys of lists -----

  predicate Names(entries: seq<Entry>, k: string) {
    exists i :: 0 <= i < |entries| && entries[i].key == StringKey(k)
  }

  /** The very same: the same values under the same keys, and the list in the same order. */
  ghost predicate Exactly(h: Heap, v: Value, t: Tree)
    decreases t
  {
    match v
    case Tbl(r) =>
      && r in h && t.TTable?
      && var es := h[r].entries;
         && (forall i :: 0 <= i < |es| ==>
               match es[i].key
               case NumberKey(n) => i < |t.list| && n == Finite((i + 1) as real) && Exactly(h, es[i].val, t.list[i])
               case StringKey(s) => s in t.fields && Exactly(h, es[i].val, t.fields[s])
               case OddKey => false)
         && (forall i :: 0 <= i < |t.list| ==> i < |es| && es[i].key.NumberKey?)
         && (forall k :: k in t.fields ==> Names(es, k))
    case _ => Denotes(h, v, t)
  }

  lemma ExactlyList(h: Heap, r: Ref, t: Tree)
    requires r in h && Denotes(h, Tbl(r), t) && Classify(h[r]).Some? && !Classify(h[r]).value.Fields?
    ensures |t.list| == |h[r].entries| && t.fields == map[]
    ensures forall i :: 0 <= i < |t.list| ==> Denotes(h, h[r].entries[i].val, t.list[i])
    ensures Exactly(h, Tbl(r), t) <==> Gapless(h[r]) && forall i :: 0 <= i < |t.list| ==>
      Exactly(h, h[r].entries[i].val, t.list[i])
  {
    OnlyNumbers(h[r].entries);
    KindsOf(h[r].entries);
  }

  lemma FieldsAreDenoted(h: Heap, r: Ref, t: Tree)
    requires r in h && Denotes(h, Tbl(r), t) && Classify(h[r]).Some? && Classify(h[r]).value.Fields?
    ensures var es := h[r].entries;
      && t.list == []
      && (forall i :: 0 <= i < |es| ==>
            && es[i].key.StringKey? && es[i].key.s in t.fields
            && Denotes(h, es[i].val, t.fields[es[i].key.s]))
      && (forall k :: k in t.fields ==> Names(es, k))
  {
    var es, strs := h[r].entries, StringVals(h[r].entries);
    OnlyStrings(es);
    forall k | k in t.fields
      ensures Names(es, k)
    {
      var i :| 0 <= i < |strs| && strs[i].key == k;
      assert es[i].key == StringKey(k);
    }
  }

  lemma ExactlyFields(h: Heap, r: Ref, t: Tree)
    requires r in h && t.TTable? && t.list == []
    requires var es := h[r].entries;
      && (forall i :: 0 <= i < |es| ==> es[i].key.StringKey? && es[i].key.s in t.fields)
      && (forall k :: k in t.fields ==> Names(es, k))
    ensures var es := h[r].entries;
      Exactly(h, Tbl(r), t) <==> forall i :: 0 <= i < |es| ==> Exactly(h, es[i].val, t.fields[es[i].key.s])
  {
  }

  /** Given what the value denotes, it is read back exactly if and only if no list below it has gaps. */
  lemma {:induction false} ExactlyIff(h: Heap, v: Value, t: Tree)
    requires Closed(h) && Known(h, v) && Denotes(h, v, t) && AllBelow(h, v, InOrder)
    ensures Exactly(h, v, t) <==> AllBelow(h, v, Gapless)
    decreases t, 1
  {
    AllBelowIff(h, v, Gapless);
    AllBelowIff(h, v, InOrder);
    if v.Tbl? {
      if Classify(h[v.ref]).value.Fields? {
        ExactlyFieldsIff(h, v.ref, t);
      } else {
        ExactlyListIff(h, v.ref, t);
      }
    }
  }

  lemma {:induction false} ExactlyListIff(h: Heap, r: Ref, t: Tree)
    requires Closed(h) && r in h && Denotes(h, Tbl(r), t) && InOrder(h[r]) && !Classify(h[r]).value.Fields?
    requires forall i :: 0 <= i < |h[r].entries| ==> AllBelow(h, h[r].entries[i].val, InOrder)
    ensures Exactly(h, Tbl(r), t) <==>
      Gapless(h[r]) && forall i :: 0 <= i < |h[r].entries| ==> AllBelow(h, h[r].entries[i].val, Gapless)
    decreases t, 0
  {
    var es := h[r].entries;
    ExactlyList(h, r, t);
    forall i | 0 <= i < |es|
      ensures Exactly(h, es[i].val, t.list[i]) <==> AllBelow(h, es[i].val, Gapless)
    {
      ExactlyIff(h, es[i].val, t.list[i]);
    }
  }

  lemma {:induction false} ExactlyFieldsIff(h: Heap, r: Ref, t: Tree)
    requires Closed(h) && r in h && Denotes(h, Tbl(r), t) && InOrder(h[r]) && Classify(h[r]).value.Fields?
    requires forall i :: 0 <= i < |h[r].entries| ==> AllBelow(h, h[r].entries[i].val, InOrder)
    ensures Exactly(h, Tbl(r), t) <==> forall i :: 0 <= i < |h[r].entries| ==> AllBelow(h, h[r].entries[i].val, Gapless)
    decreases t, 0
  {
    var es := h[r].entries;
    FieldsAreDenoted(h, r, t);
    ExactlyFields(h, r, t);
    forall i | 0 <= i < |es|
      ensures Exactly(h, es[i].val, t.fields[es[i].key.s]) <==> AllBelow(h, es[i].val, Gapless)
    {
      ExactlyIff(h, es[i].val, t.fields[es[i].key.s]);
    }
  }

  /**
   Every value that can be written is read back from its text, whatever blank indentation was asked for:
   fields by name and lists in their order.  It is the same value if and only if no list on any way down has
   gaps.  That a table was marked as an empty array is not read back.
   */
  lemma RoundTrip(h: Heap, v: Value, o: Layout)
    requires LuaHeap(h) && Known(h, v) && Unfold(h, v, {}).Some? && Blank(o)
    ensures var read := ReadAll(Render(Unfold(h, v, {}).value, "", o));
      && read.Some? && Denotes(h, v, read.value)
      && (Exactly(h, v, read.value) <==> AllBelow(h, v, Gapless))
  {
    UnfoldDenotes(h, v, {});
    TextIsReadBack(Unfold(h, v, {}).value, o);
    WrittenIff(h, v);
    assert AllBelow(h, v, InOrder) by {
      forall refs | Trail(h, v, refs)
        ensures Fine(h, refs, {}, InOrder)
      {
      }
    }
    ExactlyIff(h, v, TreeOf(Unfold(h, v, {}).value));
  }

  /** A list with a gap comes back without it: what was under 3 is under 2. */
  lemma GapIsClosed(x: Value, z: Value, o: Layout)
    requires Primitive(x).Some? && Primitive(z).Some? && Blank(o)
    ensures var h: Heap :=
        map[0 := Table([Entry(NumberKey(Finite(1.0)), x), Entry(NumberKey(Finite(3.0)), z)], 3, false)];
      && LuaHeap(h) && Unfold(h, Tbl(0), {}).Some?
      && var read := ReadAll(Render(Unfold(h, Tbl(0), {}).value, "", o));
         && read.Some? && read.value.TTable? && |read.value.list| == 2 && Denotes(h, z, read.value.list[1])
         && !Exactly(h, Tbl(0), read.value)
  {
    var t := Table([Entry(NumberKey(Finite(1.0)), x), Entry(NumberKey(Finite(3.0)), z)], 3, false);
    var h: Heap := map[0 := t];
    TwoNumbers(t.entries);
    TwoItemsUnfold(h, x, z);
    RoundTrip(h, Tbl(0), o);
  }

  /** Serializing and parsing, one after the other. */
  method SerializeAndParse(h: Heap, v: Value, indent: string) returns (read: Option<Tree>)
    requires LuaHeap(h) && Known(h, v) && IsBlank(indent)
    ensures read.Some? <==> Unfold(h, v, {}).Some?
    ensures read.Some? ==> Denotes(h, v, read.value) && (Exactly(h, v, read.value) <==> AllBelow(h, v, Gapless))
  {
    var serializer := new JSONSerializer(h, indent);
    var text := serializer.SerializeLValue(v);
    if text.None? {
      return None;
    }
    RoundTrip(h, v, Layout(indent, indent != ""));
    read := Parse(text.value);
  }
}
