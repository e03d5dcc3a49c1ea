/** Which texts are read as JSON, and as what (JSONParser in internal/luapi/lua-json.go). */
module JsonGrammar {
  import opened Prelude
  import opened JsonSerializer
  import opened JsonParser
  import opened JsonRoundTrip

  /** The text without what stands between its lexemes. */
  function NoGaps(ls: seq<Lexeme>): seq<Lexeme> {
    if ls == [] then [] else if ls[0].Gap? then NoGaps(ls[1..]) else [ls[0]] + NoGaps(ls[1..])
  }

  predicate AllBlank(ls: seq<Lexeme>) {
    forall i :: 0 <= i < |ls| && ls[i].Gap? ==> IsBlank(ls[i].w)
  }

  const COMPACT := Layout("", false)

  /** The value is spelt by this text: without blanks the text is the value's, written without any. */
  ghost predicate Spells(ls: seq<Lexeme>, j: Json) {
    Proper(j) && AllBlank(ls) && NoGaps(ls) == Render(j, "", COMPACT)
  }

  // ----- blanks make no difference -----

  function Stripped(d: Dec): Dec {
    d.(rest := NoGaps(d.rest))
  }

  lemma BlankOnward(ls: seq<Lexeme>)
    requires ls != []
    ensures AllBlank(ls) <==> (ls[0].Gap? ==> IsBlank(ls[0].w)) && AllBlank(ls[1..])
  {
    assert forall i :: 0 <= i < |ls| - 1 ==> ls[1..][i] == ls[i + 1];
    if (ls[0].Gap? ==> IsBlank(ls[0].w)) && AllBlank(ls[1..]) {
      forall i | 0 <= i < |ls| && ls[i].Gap?
        ensures IsBlank(ls[i].w)
      {
        assert i > 0 ==> ls[i] == ls[1..][i - 1];
      }
    }
  }

  /** The same token comes first, and the same blanks are behind it. */
  ghost predicate SameToken(d: Dec) {
    match Token(d)
    case Got(tok, d1) =>
      Token(Stripped(d)) == Got(tok, Stripped(d1)) && (AllBlank(d.rest) <==> AllBlank(d1.rest))
    case End => Token(Stripped(d)).End? && AllBlank(d.rest)
    case Bad => AllBlank(d.rest) ==> Token(Stripped(d)).Bad?
  }

  lemma HeadStays(ls: seq<Lexeme>)
    requires ls != [] && !ls[0].Gap?
    ensures NoGaps(ls) != [] && NoGaps(ls)[0] == ls[0] && NoGaps(ls)[1..] == NoGaps(ls[1..])
    ensures AllBlank(ls) <==> AllBlank(ls[1..])
  {
    BlankOnward(ls);
  }

  lemma GapIsSkipped(d: Dec)
    requires d.rest != [] && d.rest[0].Gap? && SameToken(d.(rest := d.rest[1..]))
    ensures SameToken(d)
  {
    BlankOnward(d.rest);
  }

  /** Behind a colon or a comma. */
  function Behind(d: Dec, state: TokenState): Dec
    requires d.rest != []
  {
    d.(rest := d.rest[1..], state := state)
  }

  /** A colon or a comma that is due, and the state behind it. */
  function Separated(d: Dec): Option<TokenState> {
    if d.rest == [] || !d.rest[0].Punct? then None
    else if d.rest[0].c == ':' && d.state.ObjectColon? then Some(ObjectValue)
    else if d.rest[0].c == ',' && d.state.ArrayComma? then Some(ArrayValue)
    else if d.rest[0].c == ',' && d.state.ObjectComma? then Some(ObjectKey)
    else None
  }

  lemma SeparatorIsSame(d: Dec)
    requires Separated(d).Some? && SameToken(Behind(d, Separated(d).value))
    ensures SameToken(d)
  {
    HeadStays(d.rest);
    assert Token(d) == Token(Behind(d, Separated(d).value));
    assert Stripped(Behind(d, Separated(d).value)) == Behind(Stripped(d), Separated(d).value);
    assert Token(Stripped(d)) == Token(Behind(Stripped(d), Separated(d).value));
  }

  lemma OtherIsSame(d: Dec)
    requires d.rest != [] && !d.rest[0].Gap? && Separated(d).None?
    ensures SameToken(d)
  {
    HeadStays(d.rest);
  }

  lemma {:induction false} TokenStripped(d: Dec)
    ensures SameToken(d)
    decreases |d.rest|
  {
    if d.rest != [] {
      if d.rest[0].Gap? {
        TokenStripped(d.(rest := d.rest[1..]));
        GapIsSkipped(d);
      } else if Separated(d).Some? {
        TokenStripped(Behind(d, Separated(d).value));
        SeparatorIsSame(d);
      } else {
        OtherIsSame(d);
      }
    }
  }

  /** The same is read, and the same blanks are behind it. */
  ghost predicate SameValue(tok: Tok, d: Dec) {
    match ReadValue(tok, d)
    case Some(Parsed(t, d1)) =>
      ReadValue(tok, Stripped(d)) == Some(Parsed(t, Stripped(d1))) && (AllBlank(d.rest) <==> AllBlank(d1.rest))
    case None => AllBlank(d.rest) ==> ReadValue(tok, Stripped(d)).None?
  }

  ghost predicate SameArray(d: Dec, list: seq<Tree>) {
    match ReadArray(d, list)
    case Some(Parsed(t, d1)) =>
      ReadArray(Stripped(d), list) == Some(Parsed(t, Stripped(d1))) && (AllBlank(d.rest) <==> AllBlank(d1.rest))
    case None => AllBlank(d.rest) ==> ReadArray(Stripped(d), list).None?
  }

  ghost predicate SameObject(d: Dec, fields: map<string, Tree>) {
    match ReadObject(d, fields)
    case Some(Parsed(t, d1)) =>
      ReadObject(Stripped(d), fields) == Some(Parsed(t, Stripped(d1))) && (AllBlank(d.rest) <==> AllBlank(d1.rest))
    case None => AllBlank(d.rest) ==> ReadObject(Stripped(d), fields).None?
  }

  lemma {:induction false} ValueStripped(tok: Tok, d: Dec)
    ensures SameValue(tok, d)
    decreases |d.rest|, 1
  {
    if tok == Delim('{') {
      ObjectStripped(d, map[]);
    } else if tok == Delim('[') {
      ArrayStripped(d, []);
    }
  }

  lemma {:induction false} ArrayStripped(d: Dec, list: seq<Tree>)
    ensures SameArray(d, list)
    decreases |d.rest|, 0
  {
    TokenStripped(d);
    if Token(d).Got? && Token(d).tok != Delim(']') {
      var Got(tok, d1) := Token(d);
      ValueStripped(tok, d1);
      var r := ReadValue(tok, d1);
      if r.Some? {
        ArrayStripped(r.value.dec, list + [r.value.tree]);
      }
    }
  }

  lemma {:induction false} ObjectStripped(d: Dec, fields: map<string, Tree>)
    ensures SameObject(d, fields)
    decreases |d.rest|, 0
  {
    TokenStripped(d);
    if Token(d).Got? && Token(d).tok.Lit? && Token(d).tok.lexeme.Quoted? {
      var Got(key, d1) := Token(d);
      TokenStripped(d1);
      if Token(d1).Got? {
        var Got(tok, d2) := Token(d1);
        ValueStripped(tok, d2);
        var r := ReadValue(tok, d2);
        if r.Some? {
          ObjectStripped(r.value.dec, fields[key.lexeme.s := r.value.tree]);
        }
      }
    }
  }

  /** A text is read if it is without its blanks; anything else that stands between lexemes spoils it. */
  lemma BlanksDoNotMatter(source: seq<Lexeme>)
    ensures ReadAll(source) == if AllBlank(source) then ReadAll(NoGaps(source)) else None
  {
    var d := Dec(source, TopValue, []);
    TokenStripped(d);
    if Token(d).Got? {
      var Got(tok, d1) := Token(d);
      ValueStripped(tok, d1);
      var r := ReadValue(tok, d1);
      if r.Some? {
        TokenStripped(r.value.dec);
      }
    }
  }

  // ----- what is read was spelt -----

  predicate Gapless(ls: seq<Lexeme>) {
    forall i :: 0 <= i < |ls| ==> !ls[i].Gap?
  }

  function Spelling(j: Json): seq<Lexeme> {
    Render(j, "", COMPACT)
  }

  /** The members of a list that are still to come, with a comma before them if some were there. */
  function Members(items: seq<Json>, first: bool): seq<Lexeme> {
    if items == [] then [] else (if first then [] else [Punct(',')]) + RenderItems(items, "", COMPACT)
  }

  function Fields(keys: seq<string>, items: seq<Json>, first: bool): seq<Lexeme> {
    if items == [] then [] else (if first then [] else [Punct(',')]) + RenderFields(keys, items, "", COMPACT)
  }

  lemma MoreMembers(j: Json, items: seq<Json>)
    ensures Members([j] + items, true) == Spelling(j) + Members(items, false)
  {
    var all := [j] + items;
    assert all[1..] == items && "" + COMPACT.indent == "";
    assert RenderItems(all, "", COMPACT)
        == Spelling(j) + After(|all| == 1, "", COMPACT) + RenderItems(items, "", COMPACT);
  }

  function OneField(key: string, j: Json): seq<Lexeme> {
    [Quoted(key), Punct(':')] + Spelling(j)
  }

  function Comma(first: bool): seq<Lexeme> {
    if first then [] else [Punct(',')]
  }

  lemma RenderMore(key: string, j: Json, keys: seq<string>, items: seq<Json>)
    ensures RenderFields([key] + keys, [j] + items, "", COMPACT) ==
      OneField(key, j) + Comma(items == []) + RenderFields(keys, items, "", COMPACT)
  {
    var all, names := [j] + items, [key] + keys;
    assert all[1..] == items && names[1..] == keys && "" + COMPACT.indent == "";
    assert Label(key, COMPACT) == [Quoted(key), Punct(':')];
    assert After(|all| == 1, "", COMPACT) == Comma(items == []);
  }

  lemma FieldsToCome(keys: seq<string>, items: seq<Json>)
    ensures Fields(keys, items, false) == Comma(items == []) + RenderFields(keys, items, "", COMPACT)
  {
    if items == [] {
      assert RenderFields(keys, items, "", COMPACT) == [];
    }
  }

  lemma Regroup(a: seq<Lexeme>, b: seq<Lexeme>, c: seq<Lexeme>)
    ensures a + b + c == a + (b + c)
  {
  }

  lemma MoreFields(key: string, j: Json, keys: seq<string>, items: seq<Json>)
    ensures Fields([key] + keys, [j] + items, true) == OneField(key, j) + Fields(keys, items, false)
  {
    RenderMore(key, j, keys, items);
    FieldsToCome(keys, items);
    Regroup(OneField(key, j), Comma(items == []), RenderFields(keys, items, "", COMPACT));
    assert [] + RenderFields([key] + keys, [j] + items, "", COMPACT)
        == RenderFields([key] + keys, [j] + items, "", COMPACT);
  }

  lemma Assemble(all: seq<Lexeme>, comma: seq<Lexeme>, one: seq<Lexeme>, rest: seq<Lexeme>, more: seq<Lexeme>,
                 close: seq<Lexeme>)
    requires all == comma + (one + rest) && rest == more + close
    ensures all == comma + (one + more) + close
  {
  }

  lemma CommaFirst(keys: seq<string>, items: seq<Json>)
    requires items != []
    ensures Fields(keys, items, false) == [Punct(',')] + Fields(keys, items, true)
    ensures Members(items, false) == [Punct(',')] + Members(items, true)
  {
  }

  lemma ArraySpelling(items: seq<Json>)
    ensures Spelling(Array(items)) == [Punct('[')] + Members(items, true) + [Punct(']')]
  {
  }

  lemma ObjectSpelling(keys: seq<string>, items: seq<Json>)
    ensures Spelling(Object(keys, items)) == [Punct('{')] + Fields(keys, items, true) + [Punct('}')]
  {
  }

  lemma Enclose(all: seq<Lexeme>, open: Lexeme, inside: seq<Lexeme>, members: seq<Lexeme>, close: Lexeme,
                rest: seq<Lexeme>)
    requires all == [open] + inside && inside == members + ([close] + rest)
    ensures all == [open] + members + [close] + rest
  {
  }

  /** What a value that was read was spelt as, at a place for a value. */
  ghost predicate SpeltAs(d: Dec, j: Json, tree: Tree, d1: Dec) {
    && Proper(j) && tree == TreeOf(j) && d.rest == Spelling(j) + d1.rest
    && d1.state == ValueEnd(d.state) && d1.stack == d.stack
  }

  /** Where a value is due, and stands. */
  predicate AtValue(d: Dec) {
    && Gapless(d.rest) && ValueAllowed(d.state)
    && Token(d).Got? && ReadValue(Token(d).tok, Token(d).dec).Some?
  }

  lemma GaplessPart(ls: seq<Lexeme>, part: seq<Lexeme>, rest: seq<Lexeme>)
    requires Gapless(ls) && ls == part + rest
    ensures Gapless(rest)
  {
    assert forall i :: 0 <= i < |rest| ==> rest[i] == ls[|part| + i];
  }

  lemma {:induction false} ListSpelt(d: Dec) returns (j: Json)
    requires AtValue(d) && Token(d).tok == Delim('[')
    ensures var r := ReadValue(Token(d).tok, Token(d).dec).value; SpeltAs(d, j, r.tree, r.dec)
    decreases |d.rest|, 0
  {
    assert !d.rest[0].Gap?;
    var d0, stack := Token(d).dec, d.stack + [d.state];
    assert d.rest == [Punct('[')] + d0.rest && stack[..|stack| - 1] == d.stack;
    var items := MembersSpelt(d0, []);
    j := Array(items);
    ArraySpelling(items);
    assert [] + TreesOf(items) == TreesOf(items);
    Enclose(d.rest, Punct('['), d0.rest, Members(items, true), Punct(']'), ReadArray(d0, []).value.dec.rest);
  }

  lemma {:induction false} ObjectSpelt(d: Dec) returns (j: Json)
    requires AtValue(d) && Token(d).tok == Delim('{')
    ensures var r := ReadValue(Token(d).tok, Token(d).dec).value; SpeltAs(d, j, r.tree, r.dec)
    decreases |d.rest|, 0
  {
    assert !d.rest[0].Gap?;
    var d0, stack := Token(d).dec, d.stack + [d.state];
    assert d.rest == [Punct('{')] + d0.rest && stack[..|stack| - 1] == d.stack;
    var keys, items := FieldsSpelt(d0, map[]);
    j := Object(keys, items);
    ObjectSpelling(keys, items);
    Enclose(d.rest, Punct('{'), d0.rest, Fields(keys, items, true), Punct('}'), ReadObject(d0, map[]).value.dec.rest);
  }

  lemma {:induction false} ValueSpelt(d: Dec) returns (j: Json)
    requires AtValue(d)
    ensures var r := ReadValue(Token(d).tok, Token(d).dec).value; SpeltAs(d, j, r.tree, r.dec)
    decreases |d.rest|, 1
  {
    if Token(d).tok == Delim('[') {
      j := ListSpelt(d);
    } else if Token(d).tok == Delim('{') {
      j := ObjectSpelt(d);
    } else {
      assert !d.rest[0].Gap?;
      j := Literal(Token(d).tok.lexeme);
    }
  }

  /** Where a list is read on. */
  predicate InList(d: Dec) {
    Gapless(d.rest) && (d.state.ArrayStart? || d.state.ArrayComma?) && d.stack != []
  }

  predicate InObject(d: Dec) {
    Gapless(d.rest) && (d.state.ObjectStart? || d.state.ObjectComma?) && d.stack != []
  }

  /** Behind the bracket or brace that closes what `d` is in. */
  ghost predicate Closed(d: Dec, d1: Dec)
    requires d.stack != []
  {
    d1.state == ValueEnd(d.stack[|d.stack| - 1]) && d1.stack == d.stack[..|d.stack| - 1]
  }

  lemma ListCloses(d: Dec)
    requires InList(d) && Token(d).Got? && Token(d).tok == Delim(']')
    ensures d.rest == [Punct(']')] + Token(d).dec.rest && Closed(d, Token(d).dec)
  {
    assert !d.rest[0].Gap?;
    assert |d.rest| > 1 ==> !d.rest[1].Gap?;
  }

  /** Where the next member stands: behind the comma, if one is due. */
  lemma MemberFollows(d: Dec) returns (d': Dec)
    requires InList(d) && Token(d).Got? && Token(d).tok != Delim(']') && ReadValue(Token(d).tok, Token(d).dec).Some?
    ensures d'.stack == d.stack && ValueEnd(d'.state) == ArrayComma && AtValue(d') && Token(d') == Token(d)
    ensures d.rest == Comma(d.state.ArrayStart?) + d'.rest
  {
    assert !d.rest[0].Gap?;
    if d.state.ArrayStart? {
      d' := d;
    } else {
      d' := Behind(d, ArrayValue);
      GaplessPart(d.rest, [d.rest[0]], d'.rest);
    }
  }

  lemma {:induction false} NextMember(d: Dec, list: seq<Tree>) returns (j: Json, d2: Dec)
    requires InList(d) && ReadArray(d, list).Some? && Token(d).tok != Delim(']')
    ensures Proper(j) && ReadArray(d, list) == ReadArray(d2, list + [TreeOf(j)])
    ensures InList(d2) && d2.state.ArrayComma? && d2.stack == d.stack && |d2.rest| < |d.rest|
    ensures d.rest == Comma(d.state.ArrayStart?) + (Spelling(j) + d2.rest)
    decreases |d.rest|, 2
  {
    var d' := MemberFollows(d);
    j := ValueSpelt(d');
    d2 := ReadValue(Token(d).tok, Token(d).dec).value.dec;
    GaplessPart(d'.rest, Spelling(j), d2.rest);
  }

  /** The members that were read from `d` on. */
  ghost predicate MembersRead(d: Dec, list: seq<Tree>, items: seq<Json>)
    requires d.stack != [] && ReadArray(d, list).Some?
  {
    var Parsed(tree, d1) := ReadArray(d, list).value;
    && (forall i :: 0 <= i < |items| ==> Proper(items[i]))
    && tree == TTable(list + TreesOf(items), map[])
    && d.rest == Members(items, d.state.ArrayStart?) + ([Punct(']')] + d1.rest) && Closed(d, d1)
  }

  lemma TreesOnward(list: seq<Tree>, j: Json, more: seq<Json>)
    ensures list + TreesOf([j] + more) == list + [TreeOf(j)] + TreesOf(more)
  {
    assert ([j] + more)[1..] == more;
  }

  lemma OneMoreRead(d: Dec, list: seq<Tree>, j: Json, d2: Dec, more: seq<Json>)
    requires d.stack != [] && d2.stack == d.stack && d2.state.ArrayComma? && Proper(j)
    requires ReadArray(d, list).Some? && ReadArray(d, list) == ReadArray(d2, list + [TreeOf(j)])
    requires d.rest == Comma(d.state.ArrayStart?) + (Spelling(j) + d2.rest)
    requires MembersRead(d2, list + [TreeOf(j)], more)
    ensures MembersRead(d, list, [j] + more)
  {
    MoreMembers(j, more);
    CommaFirst([], [j] + more);
    TreesOnward(list, j, more);
    var first := d.state.ArrayStart?;
    assert Members([j] + more, first) == Comma(first) + (Spelling(j) + Members(more, false));
    var close := [Punct(']')] + ReadArray(d, list).value.dec.rest;
    Assemble(d.rest, Comma(first), Spelling(j), d2.rest, Members(more, false), close);
  }

  lemma {:induction false} MembersSpelt(d: Dec, list: seq<Tree>) returns (items: seq<Json>)
    requires InList(d) && ReadArray(d, list).Some?
    ensures MembersRead(d, list, items)
    decreases |d.rest|, 3
  {
    if Token(d).tok == Delim(']') {
      ListCloses(d);
      items := [];
      assert list + TreesOf(items) == list;
    } else {
      var j, d2 := NextMember(d, list);
      var more := MembersSpelt(d2, list + [TreeOf(j)]);
      items := [j] + more;
      OneMoreRead(d, list, j, d2, more);
    }
  }

  lemma FieldsOnward(key: string, keys: seq<string>, j: Json, more: seq<Json>, fields: map<string, Tree>)
    ensures FieldsOf([key] + keys, [j] + more, fields) == FieldsOf(keys, more, fields[key := TreeOf(j)])
  {
    assert ([j] + more)[1..] == more && ([key] + keys)[1..] == keys;
  }

  lemma LabelFirst(all: seq<Lexeme>, comma: seq<Lexeme>, key: string, j: Json, value: seq<Lexeme>, rest: seq<Lexeme>)
    requires all == comma + ([Quoted(key), Punct(':')] + value) && value == Spelling(j) + rest
    ensures all == comma + (OneField(key, j) + rest) && |rest| < |all|
  {
  }

  lemma FieldReadOn(d: Dec, fields: map<string, Tree>, key: string, d2: Dec, tree: Tree, d3: Dec)
    requires Token(d).Got? && Token(d).tok == Lit(Quoted(key)) && d2 == Token(d).dec && Token(d2).Got?
    requires ReadValue(Token(d2).tok, Token(d2).dec) == Some(Parsed(tree, d3))
    ensures ReadObject(d, fields) == ReadObject(d3, fields[key := tree])
  {
  }

  /** The key of the next field, behind the comma, if one is due. */
  lemma KeyFollows(d: Dec) returns (key: string, d2: Dec)
    requires InObject(d) && Token(d).Got? && Token(d).tok.Lit? && Token(d).tok.lexeme.Quoted?
    ensures Token(d) == Got(Lit(Quoted(key)), d2) && d2.stack == d.stack && d2.state.ObjectColon? && Gapless(d2.rest)
    ensures d.rest == Comma(d.state.ObjectStart?) + ([Quoted(key)] + d2.rest)
  {
    assert !d.rest[0].Gap?;
    assert |d.rest| > 1 ==> !d.rest[1].Gap?;
    key, d2 := Token(d).tok.lexeme.s, Token(d).dec;
    GaplessPart(d.rest, Comma(d.state.ObjectStart?) + [Quoted(key)], d2.rest);
  }

  /** Where its value stands: behind the colon. */
  lemma ColonFollows(d2: Dec) returns (d': Dec)
    requires Gapless(d2.rest) && d2.state.ObjectColon? && Token(d2).Got?
    requires ReadValue(Token(d2).tok, Token(d2).dec).Some?
    ensures d'.stack == d2.stack && d'.state == ObjectValue && AtValue(d') && Token(d2) == Token(d')
    ensures d2.rest == [Punct(':')] + d'.rest
  {
    assert !d2.rest[0].Gap?;
    d' := Behind(d2, ObjectValue);
    GaplessPart(d2.rest, [d2.rest[0]], d'.rest);
  }

  lemma FieldIsRead(d: Dec, fields: map<string, Tree>)
    requires ReadObject(d, fields).Some? && Token(d).tok != Delim('}')
    ensures Token(d).Got? && Token(d).tok.Lit? && Token(d).tok.lexeme.Quoted?
    ensures var value := Token(Token(d).dec); value.Got? && ReadValue(value.tok, value.dec).Some?
  {
  }

  lemma FieldFollows(d: Dec, fields: map<string, Tree>) returns (key: string, d': Dec, d2: Dec)
    requires InObject(d) && ReadObject(d, fields).Some? && Token(d).tok != Delim('}')
    ensures Token(d).tok == Lit(Quoted(key)) && d2 == Token(d).dec && Token(d2) == Token(d')
    ensures d'.stack == d.stack && d'.state == ObjectValue && AtValue(d')
    ensures d.rest == Comma(d.state.ObjectStart?) + ([Quoted(key), Punct(':')] + d'.rest)
  {
    FieldIsRead(d, fields);
    key, d2 := KeyFollows(d);
    d' := ColonFollows(d2);
    assert [Quoted(key)] + ([Punct(':')] + d'.rest) == [Quoted(key), Punct(':')] + d'.rest;
  }

  lemma {:induction false} NextField(d: Dec, fields: map<string, Tree>) returns (key: string, j: Json, d3: Dec)
    requires InObject(d) && ReadObject(d, fields).Some? && Token(d).tok != Delim('}')
    ensures Proper(j) && ReadObject(d, fields) == ReadObject(d3, fields[key := TreeOf(j)])
    ensures InObject(d3) && d3.state.ObjectComma? && d3.stack == d.stack && |d3.rest| < |d.rest|
    ensures d.rest == Comma(d.state.ObjectStart?) + (OneField(key, j) + d3.rest)
    decreases |d.rest|, 2
  {
    var d', d2;
    key, d', d2 := FieldFollows(d, fields);
    j := ValueSpelt(d');
    var r := ReadValue(Token(d').tok, Token(d').dec).value;
    d3 := r.dec;
    GaplessPart(d'.rest, Spelling(j), d3.rest);
    LabelFirst(d.rest, Comma(d.state.ObjectStart?), key, j, d'.rest, d3.rest);
    FieldReadOn(d, fields, key, d2, r.tree, d3);
  }

  ghost predicate FieldsRead(d: Dec, fields: map<string, Tree>, keys: seq<string>, items: seq<Json>)
    requires d.stack != [] && ReadObject(d, fields).Some?
  {
    var Parsed(tree, d1) := ReadObject(d, fields).value;
    && |keys| == |items| && (forall i :: 0 <= i < |items| ==> Proper(items[i]))
    && tree == TTable([], FieldsOf(keys, items, fields))
    && d.rest == Fields(keys, items, d.state.ObjectStart?) + ([Punct('}')] + d1.rest) && Closed(d, d1)
  }

  lemma OneMoreFieldRead(
    d: Dec, fields: map<string, Tree>, key: string, j: Json, d3: Dec, keys: seq<string>, more: seq<Json>)
    requires d.stack != [] && d3.stack == d.stack && d3.state.ObjectComma? && Proper(j)
    requires ReadObject(d, fields).Some? && ReadObject(d, fields) == ReadObject(d3, fields[key := TreeOf(j)])
    requires d.rest == Comma(d.state.ObjectStart?) + (OneField(key, j) + d3.rest)
    requires FieldsRead(d3, fields[key := TreeOf(j)], keys, more)
    ensures FieldsRead(d, fields, [key] + keys, [j] + more)
  {
    MoreFields(key, j, keys, more);
    CommaFirst([key] + keys, [j] + more);
    FieldsOnward(key, keys, j, more, fields);
    var first := d.state.ObjectStart?;
    assert Fields([key] + keys, [j] + more, first) == Comma(first) + (OneField(key, j) + Fields(keys, more, false));
    var close := [Punct('}')] + ReadObject(d, fields).value.dec.rest;
    Assemble(d.rest, Comma(first), OneField(key, j), d3.rest, Fields(keys, more, false), close);
  }

  lemma ObjectCloses(d: Dec)
    requires InObject(d) && Token(d).Got? && Token(d).tok == Delim('}')
    ensures d.rest == [Punct('}')] + Token(d).dec.rest && Closed(d, Token(d).dec)
  {
    assert !d.rest[0].Gap?;
    assert |d.rest| > 1 ==> !d.rest[1].Gap?;
  }

  lemma {:induction false} FieldsSpelt(d: Dec, fields: map<string, Tree>)
    returns (keys: seq<string>, items: seq<Json>)
    requires InObject(d) && ReadObject(d, fields).Some?
    ensures FieldsRead(d, fields, keys, items)
    decreases |d.rest|, 3
  {
    if Token(d).tok == Delim('}') {
      ObjectCloses(d);
      keys, items := [], [];
    } else {
      var key, j, d3 := NextField(d, fields);
      var names, more := FieldsSpelt(d3, fields[key := TreeOf(j)]);
      keys, items := [key] + names, [j] + more;
      OneMoreFieldRead(d, fields, key, j, d3, names, more);
    }
  }

  // ----- exactly JSON is read -----

  lemma {:induction false} NoGapsAreLeft(ls: seq<Lexeme>)
    ensures Gapless(NoGaps(ls))
  {
    if ls != [] {
      NoGapsAreLeft(ls[1..]);
    }
  }

  lemma ReadWasSpelt(source: seq<Lexeme>) returns (j: Json)
    requires Gapless(source) && ReadAll(source).Some?
    ensures Proper(j) && source == Spelling(j) && ReadAll(source) == Some(TreeOf(j))
  {
    var d := Dec(source, TopValue, []);
    j := ValueSpelt(d);
    var d1 := ReadValue(Token(d).tok, Token(d).dec).value.dec;
    GaplessPart(source, Spelling(j), d1.rest);
    assert d1.rest == [];
    assert Spelling(j) + [] == Spelling(j);
  }

  /** A text is read, and as this value, if and only if it spells a value that amounts to it. */
  lemma ReadIff(source: seq<Lexeme>, tree: Tree)
    ensures ReadAll(source) == Some(tree) <==> exists j :: Spells(source, j) && tree == TreeOf(j)
  {
    BlanksDoNotMatter(source);
    if ReadAll(source) == Some(tree) {
      NoGapsAreLeft(source);
      var j := ReadWasSpelt(NoGaps(source));
      assert Spells(source, j);
    }
    if j :| Spells(source, j) && tree == TreeOf(j) {
      TextIsReadBack(j, COMPACT);
    }
  }

  // ----- what a spelling amounts to -----

  lemma {:induction false} ItemsInOrder(items: seq<Json>, i: nat)
    requires i < |items|
    ensures TreesOf(items)[i] == TreeOf(items[i])
  {
    if i > 0 {
      ItemsInOrder(items[1..], i - 1);
    }
  }

  lemma {:induction false} OtherFieldsStay(keys: seq<string>, items: seq<Json>, fields: map<string, Tree>, k: string)
    requires |keys| == |items| && k !in keys
    ensures var all := FieldsOf(keys, items, fields);
      (k in all <==> k in fields) && (k in all ==> all[k] == fields[k])
    decreases |items|
  {
    if items != [] {
      assert keys[0] in keys && forall x :: x in keys[1..] ==> x in keys;
      OtherFieldsStay(keys[1..], items[1..], fields[keys[0] := TreeOf(items[0])], k);
    }
  }

  /** Of several fields of one name the last one counts. */
  lemma {:induction false} LastFieldCounts(keys: seq<string>, items: seq<Json>, fields: map<string, Tree>, i: nat)
    requires |keys| == |items| && i < |keys| && forall j :: i < j < |keys| ==> keys[j] != keys[i]
    ensures var all := FieldsOf(keys, items, fields);
      keys[i] in all && all[keys[i]] == TreeOf(items[i])
    decreases |items|
  {
    var fields' := fields[keys[0] := TreeOf(items[0])];
    if i > 0 {
      LastFieldCounts(keys[1..], items[1..], fields', i - 1);
    } else {
      OtherFieldsStay(keys[1..], items[1..], fields', keys[0]);
    }
  }
}
