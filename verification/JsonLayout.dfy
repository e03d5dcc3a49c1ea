/** How the text that is written is laid out (JSONSerializer in internal/luapi/lua-json.go). */
module JsonLayout {
  import opened JsonSerializer
  import opened JsonRoundTrip

  // `spell` says how strings, numbers, words and punctuation are written; what it says does not matter here.

  /** The characters of a text. */
  function TextOf(ls: seq<Lexeme>, spell: Lexeme -> string): string {
    if ls == [] then "" else (if ls[0].Gap? then ls[0].w else spell(ls[0])) + TextOf(ls[1..], spell)
  }

  function Repeat(s: string, n: nat): string {
    if n == 0 then "" else s + Repeat(s, n - 1)
  }

  /** A new line at a depth, in a layout that has lines. */
  function LineAt(depth: nat, o: Layout): string {
    if o.newline then "\n" + Repeat(o.indent, depth) else ""
  }

  /**
   Each member of a list or an object stands on a line of its own, one indentation deeper than what it is in, and
   what closes it on the line behind them.  What is empty stays on one line.
   */
  function Pretty(j: Json, depth: nat, o: Layout, spell: Lexeme -> string): string {
    match j
    case Literal(l) => spell(l)
    case Array(items) =>
      if items == [] then spell(Punct('[')) + spell(Punct(']'))
      else
        spell(Punct('[')) + LineAt(depth + 1, o) + PrettyItems(items, depth + 1, o, spell)
        + LineAt(depth, o) + spell(Punct(']'))
    case Object(keys, items) =>
      if items == [] then spell(Punct('{')) + spell(Punct('}'))
      else
        spell(Punct('{')) + LineAt(depth + 1, o) + PrettyFields(keys, items, depth + 1, o, spell)
        + LineAt(depth, o) + spell(Punct('}'))
  }

  function PrettyItems(items: seq<Json>, depth: nat, o: Layout, spell: Lexeme -> string): string {
    if items == [] then ""
    else if |items| == 1 then Pretty(items[0], depth, o, spell)
    else
      Pretty(items[0], depth, o, spell) + spell(Punct(',')) + LineAt(depth, o)
      + PrettyItems(items[1..], depth, o, spell)
  }

  function PrettyLabel(key: string, o: Layout, spell: Lexeme -> string): string {
    spell(Quoted(key)) + spell(Punct(':')) + (if o.indent != "" then " " else "")
  }

  function PrettyFields(keys: seq<string>, items: seq<Json>, depth: nat, o: Layout, spell: Lexeme -> string): string
    decreases items
  {
    if items == [] || keys == [] then ""
    else if |items| == 1 then PrettyLabel(keys[0], o, spell) + Pretty(items[0], depth, o, spell)
    else
      PrettyLabel(keys[0], o, spell) + Pretty(items[0], depth, o, spell) + spell(Punct(',')) + LineAt(depth, o)
      + PrettyFields(keys[1..], items[1..], depth, o, spell)
  }

  // ----- what is written is that -----

  lemma {:induction false} TextOfBoth(a: seq<Lexeme>, b: seq<Lexeme>, spell: Lexeme -> string)
    ensures TextOf(a + b, spell) == TextOf(a, spell) + TextOf(b, spell)
    decreases |a|
  {
    if a == [] {
      assert a + b == b;
    } else {
      assert (a + b)[0] == a[0] && (a + b)[1..] == a[1..] + b;
      TextOfBoth(a[1..], b, spell);
    }
  }

  lemma TextOfOne(l: Lexeme, spell: Lexeme -> string)
    ensures TextOf([l], spell) == if l.Gap? then l.w else spell(l)
  {
    assert [l][1..] == [];
  }

  /** Another indentation may as well come behind the others. */
  lemma {:induction false} RepeatBehind(s: string, n: nat)
    ensures Repeat(s, n + 1) == Repeat(s, n) + s
  {
    if n > 0 {
      RepeatBehind(s, n - 1);
      assert Repeat(s, n + 1) == s + (Repeat(s, n - 1) + s) == Repeat(s, n) + s;
    }
  }

  lemma TextOfBefore(depth: nat, o: Layout, spell: Lexeme -> string)
    ensures TextOf(Before(Repeat(o.indent, depth), o), spell) == LineAt(depth + 1, o)
  {
    RepeatBehind(o.indent, depth);
    if o.newline {
      var indent := Repeat(o.indent, depth) + o.indent;
      assert [Gap("\n"), Gap(indent)][1..] == [Gap(indent)];
      TextOfOne(Gap(indent), spell);
    }
  }

  lemma TextOfAfter(last: bool, depth: nat, o: Layout, spell: Lexeme -> string)
    ensures TextOf(After(last, Repeat(o.indent, depth), o), spell) ==
      if last then LineAt(depth, o) else spell(Punct(',')) + LineAt(depth + 1, o)
  {
    var indent := Repeat(o.indent, depth);
    var comma: seq<Lexeme> := if last then [] else [Punct(',')];
    var more: seq<Lexeme> := if last then [] else [Gap(o.indent)];
    var lines: seq<Lexeme> := if o.newline then [Gap("\n")] + more + [Gap(indent)] else [];
    assert After(last, indent, o) == comma + lines;
    TextOfBoth(comma, lines, spell);
    TextOfOne(Punct(','), spell);
    if o.newline {
      TextOfBoth([Gap("\n")] + more, [Gap(indent)], spell);
      TextOfBoth([Gap("\n")], more, spell);
      TextOfOne(Gap("\n"), spell);
      TextOfOne(Gap(o.indent), spell);
      TextOfOne(Gap(indent), spell);
      assert "\n" + o.indent + indent == "\n" + (o.indent + indent);
    }
  }

  lemma TextOfLabel(key: string, o: Layout, spell: Lexeme -> string)
    ensures TextOf(Label(key, o), spell) == PrettyLabel(key, o, spell)
  {
    var space: seq<Lexeme> := if o.indent != "" then [Gap(" ")] else [];
    TextOfBoth([Quoted(key), Punct(':')], space, spell);
    TextOfOne(Gap(" "), spell);
    TextOfOne(Punct(':'), spell);
    assert [Quoted(key), Punct(':')][1..] == [Punct(':')];
  }

  lemma EmptyText(open: char, close: char, spell: Lexeme -> string)
    ensures TextOf([Punct(open), Punct(close)], spell) == spell(Punct(open)) + spell(Punct(close))
  {
    assert [Punct(open), Punct(close)][1..] == [Punct(close)];
    TextOfOne(Punct(close), spell);
  }

  lemma EnclosedText(open: char, close: char, before: seq<Lexeme>, inside: seq<Lexeme>, spell: Lexeme -> string)
    ensures TextOf([Punct(open)] + before + inside + [Punct(close)], spell) ==
      spell(Punct(open)) + TextOf(before, spell) + TextOf(inside, spell) + spell(Punct(close))
  {
    TextOfBoth([Punct(open)] + before + inside, [Punct(close)], spell);
    TextOfBoth([Punct(open)] + before, inside, spell);
    TextOfBoth([Punct(open)], before, spell);
    TextOfOne(Punct(open), spell);
    TextOfOne(Punct(close), spell);
  }

  lemma ThreeTexts(a: seq<Lexeme>, b: seq<Lexeme>, c: seq<Lexeme>, spell: Lexeme -> string)
    ensures TextOf(a + b + c, spell) == TextOf(a, spell) + TextOf(b, spell) + TextOf(c, spell)
  {
    TextOfBoth(a + b, c, spell);
    TextOfBoth(a, b, spell);
  }

  lemma Regroup(a: string, b: string, c: string, d: string, e: string)
    ensures a + (b + c) + (d + e) == a + b + c + d + e
  {
    assert a + (b + c) == a + b + c;
    assert (a + b + c) + (d + e) == a + b + c + d + e;
  }

  lemma RegroupEnclosed(a: string, b: string, c: string, d: string, e: string)
    ensures a + b + (c + d) + e == a + b + c + d + e
  {
    assert (a + b) + (c + d) == a + b + c + d;
  }

  /** What is written of the members from one on, after it was written itself. */
  lemma ItemsStep(items: seq<Json>, depth: nat, o: Layout, spell: Lexeme -> string)
    requires items != []
    requires var indent := Repeat(o.indent, depth);
      TextOf(Render(items[0], indent + o.indent, o), spell) == Pretty(items[0], depth + 1, o, spell)
    requires |items| > 1 ==>
      TextOf(RenderItems(items[1..], Repeat(o.indent, depth), o), spell) ==
        PrettyItems(items[1..], depth + 1, o, spell) + LineAt(depth, o)
    ensures TextOf(RenderItems(items, Repeat(o.indent, depth), o), spell) ==
      PrettyItems(items, depth + 1, o, spell) + LineAt(depth, o)
  {
    var indent, last := Repeat(o.indent, depth), |items| == 1;
    var first, more := Render(items[0], indent + o.indent, o), RenderItems(items[1..], indent, o);
    TextOfAfter(last, depth, o, spell);
    ThreeTexts(first, After(last, indent, o), more, spell);
    if last {
      assert more == [] && TextOf(more, spell) == "";
    } else {
      Regroup(Pretty(items[0], depth + 1, o, spell), spell(Punct(',')), LineAt(depth + 1, o),
              PrettyItems(items[1..], depth + 1, o, spell), LineAt(depth, o));
    }
  }

  lemma {:induction false} ItemsPretty(items: seq<Json>, depth: nat, o: Layout, spell: Lexeme -> string)
    requires items != [] && forall i :: 0 <= i < |items| ==> Proper(items[i])
    ensures TextOf(RenderItems(items, Repeat(o.indent, depth), o), spell) ==
      PrettyItems(items, depth + 1, o, spell) + LineAt(depth, o)
    decreases items, 1
  {
    RepeatBehind(o.indent, depth);
    WrittenPretty(items[0], depth + 1, o, spell);
    if |items| > 1 {
      ItemsPretty(items[1..], depth, o, spell);
    }
    ItemsStep(items, depth, o, spell);
  }

  lemma FieldsStep(keys: seq<string>, items: seq<Json>, depth: nat, o: Layout, spell: Lexeme -> string)
    requires |keys| == |items| > 0
    requires var indent := Repeat(o.indent, depth);
      TextOf(Render(items[0], indent + o.indent, o), spell) == Pretty(items[0], depth + 1, o, spell)
    requires |items| > 1 ==>
      TextOf(RenderFields(keys[1..], items[1..], Repeat(o.indent, depth), o), spell) ==
        PrettyFields(keys[1..], items[1..], depth + 1, o, spell) + LineAt(depth, o)
    ensures TextOf(RenderFields(keys, items, Repeat(o.indent, depth), o), spell) ==
      PrettyFields(keys, items, depth + 1, o, spell) + LineAt(depth, o)
  {
    var indent, last := Repeat(o.indent, depth), |items| == 1;
    var head, value := Label(keys[0], o), Render(items[0], indent + o.indent, o);
    var more := RenderFields(keys[1..], items[1..], indent, o);
    TextOfAfter(last, depth, o, spell);
    TextOfLabel(keys[0], o, spell);
    TextOfBoth(head, value, spell);
    ThreeTexts(head + value, After(last, indent, o), more, spell);
    var one := PrettyLabel(keys[0], o, spell) + Pretty(items[0], depth + 1, o, spell);
    if last {
      assert more == [] && TextOf(more, spell) == "";
    } else {
      Regroup(one, spell(Punct(',')), LineAt(depth + 1, o),
              PrettyFields(keys[1..], items[1..], depth + 1, o, spell), LineAt(depth, o));
    }
  }

  lemma {:induction false} FieldsPretty(
    keys: seq<string>, items: seq<Json>, depth: nat, o: Layout, spell: Lexeme -> string)
    requires |keys| == |items| > 0 && forall i :: 0 <= i < |items| ==> Proper(items[i])
    ensures TextOf(RenderFields(keys, items, Repeat(o.indent, depth), o), spell) ==
      PrettyFields(keys, items, depth + 1, o, spell) + LineAt(depth, o)
    decreases items, 1
  {
    RepeatBehind(o.indent, depth);
    WrittenPretty(items[0], depth + 1, o, spell);
    if |items| > 1 {
      FieldsPretty(keys[1..], items[1..], depth, o, spell);
    }
    FieldsStep(keys, items, depth, o, spell);
  }

  lemma ArrayPretty(items: seq<Json>, depth: nat, o: Layout, spell: Lexeme -> string)
    requires items != []
    requires TextOf(RenderItems(items, Repeat(o.indent, depth), o), spell) ==
      PrettyItems(items, depth + 1, o, spell) + LineAt(depth, o)
    ensures TextOf(Render(Array(items), Repeat(o.indent, depth), o), spell) == Pretty(Array(items), depth, o, spell)
  {
    var indent := Repeat(o.indent, depth);
    TextOfBefore(depth, o, spell);
    EnclosedText('[', ']', Before(indent, o), RenderItems(items, indent, o), spell);
    RegroupEnclosed(spell(Punct('[')), LineAt(depth + 1, o), PrettyItems(items, depth + 1, o, spell), LineAt(depth, o),
                    spell(Punct(']')));
  }

  lemma ObjectPretty(keys: seq<string>, items: seq<Json>, depth: nat, o: Layout, spell: Lexeme -> string)
    requires items != []
    requires TextOf(RenderFields(keys, items, Repeat(o.indent, depth), o), spell) ==
      PrettyFields(keys, items, depth + 1, o, spell) + LineAt(depth, o)
    ensures TextOf(Render(Object(keys, items), Repeat(o.indent, depth), o), spell) ==
      Pretty(Object(keys, items), depth, o, spell)
  {
    var indent := Repeat(o.indent, depth);
    TextOfBefore(depth, o, spell);
    EnclosedText('{', '}', Before(indent, o), RenderFields(keys, items, indent, o), spell);
    RegroupEnclosed(spell(Punct('{')), LineAt(depth + 1, o), PrettyFields(keys, items, depth + 1, o, spell),
                    LineAt(depth, o), spell(Punct('}')));
  }

  /** The text of a value written at a depth. */
  lemma {:induction false} WrittenPretty(j: Json, depth: nat, o: Layout, spell: Lexeme -> string)
    requires Proper(j)
    ensures TextOf(Render(j, Repeat(o.indent, depth), o), spell) == Pretty(j, depth, o, spell)
    decreases j, 0
  {
    match j
    case Literal(l) => TextOfOne(l, spell);
    case Array(items) =>
      if items == [] {
        EmptyText('[', ']', spell);
      } else {
        ItemsPretty(items, depth, o, spell);
        ArrayPretty(items, depth, o, spell);
      }
    case Object(keys, items) =>
      if items == [] {
        EmptyText('{', '}', spell);
      } else {
        FieldsPretty(keys, items, depth, o, spell);
        ObjectPretty(keys, items, depth, o, spell);
      }
  }
}
