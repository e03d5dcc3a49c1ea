/**
 Reading JSON into Lua values (JSONParser in internal/luapi/lua-json.go).

 The tokens come from encoding/json, whose decoder is modelled by the states it goes through; a table that
 is being filled is a list and a map of fields.
 */
module JsonParser {
  import opened Prelude
  import opened JsonSerializer

  // ----- tokens -----

  datatype TokenState =
    | TopValue | ArrayStart | ArrayValue | ArrayComma
    | ObjectStart | ObjectKey | ObjectColon | ObjectValue | ObjectComma

  datatype Dec = Dec(rest: seq<Lexeme>, state: TokenState, stack: seq<TokenState>)

  datatype Tok = Delim(c: char) | Lit(lexeme: Lexeme)

  datatype Reading = Got(tok: Tok, dec: Dec) | End | Bad

  predicate IsBlank(w: string) {
    forall i :: 0 <= i < |w| ==> w[i] == ' ' || w[i] == '\t' || w[i] == '\r' || w[i] == '\n'
  }

  predicate ValueAllowed(s: TokenState) {
    s.TopValue? || s.ArrayStart? || s.ArrayValue? || s.ObjectValue?
  }

  /** The state after a value. */
  function ValueEnd(s: TokenState): TokenState {
    match s
    case ArrayStart => ArrayComma
    case ArrayValue => ArrayComma
    case ObjectValue => ObjectComma
    case _ => s
  }

  function Close(d: Dec, c: char): Reading
    requires d.rest != []
  {
    if d.stack == [] then Bad
    else
      var n := |d.stack| - 1;
      Got(Delim(c), Dec(d.rest[1..], ValueEnd(d.stack[n]), d.stack[..n]))
  }

  function Token(d: Dec): (r: Reading)
    ensures r.Got? ==> |r.dec.rest| < |d.rest|
    decreases |d.rest|
  {
    if d.rest == [] then End
    else
      var more := d.rest[1..];
      match d.rest[0]
      case Gap(w) => if IsBlank(w) then Token(d.(rest := more)) else Bad
      case Punct(c) =>
        if c == '[' then
          if ValueAllowed(d.state) then Got(Delim('['), Dec(more, ArrayStart, d.stack + [d.state])) else Bad
        else if c == '{' then
          if ValueAllowed(d.state) then Got(Delim('{'), Dec(more, ObjectStart, d.stack + [d.state])) else Bad
        else if c == ']' then
          if d.state.ArrayStart? || d.state.ArrayComma? then Close(d, ']') else Bad
        else if c == '}' then
          if d.state.ObjectStart? || d.state.ObjectComma? then Close(d, '}') else Bad
        else if c == ':' then
          if d.state.ObjectColon? then Token(d.(rest := more, state := ObjectValue)) else Bad
        else if c == ',' then
          if d.state.ArrayComma? then Token(d.(rest := more, state := ArrayValue))
          else if d.state.ObjectComma? then Token(d.(rest := more, state := ObjectKey))
          else Bad
        else Bad
      case Quoted(_) =>
        if d.state.ObjectStart? || d.state.ObjectKey? then Got(Lit(d.rest[0]), d.(rest := more, state := ObjectColon))
        else if ValueAllowed(d.state) then Got(Lit(d.rest[0]), d.(rest := more, state := ValueEnd(d.state)))
        else Bad
      case Numeral(_) =>
        if ValueAllowed(d.state) then Got(Lit(d.rest[0]), d.(rest := more, state := ValueEnd(d.state))) else Bad
      case Word(w) =>
        if ValueAllowed(d.state) && (w == "null" || w == "true" || w == "false") then
          Got(Lit(d.rest[0]), d.(rest := more, state := ValueEnd(d.state)))
        else Bad
  }

  // ----- values -----

  /** A Lua value without its identity: a table is what it holds under 1, 2, ... and under strings. */
  datatype Tree =
    | TNull
    | TBool(b: bool)
    | TNum(x: real)
    | TStr(s: string)
    | TTable(list: seq<Tree>, fields: map<string, Tree>)

  function ParseLiteral(l: Lexeme): Option<Tree> {
    match l
    case Quoted(s) => Some(TStr(s))
    case Numeral(x) => Some(TNum(x))
    case Word(w) =>
      if w == "null" then Some(TNull)
      else if w == "true" then Some(TBool(true))
      else if w == "false" then Some(TBool(false))
      else None
    case _ => None
  }

  datatype Parsed = Parsed(tree: Tree, dec: Dec)

  function ReadValue(tok: Tok, d: Dec): (r: Option<Parsed>)
    ensures r.Some? ==> |r.value.dec.rest| <= |d.rest|
    decreases |d.rest|, 1
  {
    match tok
    case Delim(c) =>
      if c == '{' then ReadObject(d, map[]) else if c == '[' then ReadArray(d, []) else None
    case Lit(l) =>
      match ParseLiteral(l)
      case None => None
      case Some(t) => Some(Parsed(t, d))
  }

  function ReadObject(d: Dec, fields: map<string, Tree>): (r: Option<Parsed>)
    ensures r.Some? ==> |r.value.dec.rest| <= |d.rest|
    decreases |d.rest|, 0
  {
    match Token(d)
    case Got(Delim(c), d1) => if c == '}' then Some(Parsed(TTable([], fields), d1)) else None
    case Got(Lit(Quoted(key)), d1) =>
      (match Token(d1)
       case Got(tok, d2) =>
         (match ReadValue(tok, d2)
          case Some(Parsed(value, d3)) => ReadObject(d3, fields[key := value])
          case None => None)
       case _ => None)
    case _ => None
  }

  function ReadArray(d: Dec, list: seq<Tree>): (r: Option<Parsed>)
    ensures r.Some? ==> |r.value.dec.rest| <= |d.rest|
    decreases |d.rest|, 0
  {
    match Token(d)
    case Got(tok, d1) =>
      if tok == Delim(']') then Some(Parsed(TTable(list, map[]), d1))
      else
        (match ReadValue(tok, d1)
         case Some(Parsed(value, d2)) => ReadArray(d2, list + [value])
         case None => None)
    case _ => None
  }

  function ReadAll(source: seq<Lexeme>): Option<Tree> {
    match Token(Dec(source, TopValue, []))
    case Got(tok, d) =>
      (match ReadValue(tok, d)
       case Some(Parsed(tree, d1)) => if Token(d1).End? then Some(tree) else None
       case None => None)
    case _ => None
  }

  // ----- the parser -----

  class Decoder {
    var d: Dec

    constructor (source: seq<Lexeme>)
      ensures d == Dec(source, TopValue, [])
    {
      d := Dec(source, TopValue, []);
    }

    method Next() returns (r: Reading)
      modifies this
      ensures r == Token(old(d))
      ensures d == if r.Got? then r.dec else old(d)
    {
      r := Token(d);
      if r.Got? {
        d := r.dec;
      }
    }
  }

  method ParseValue(token: Tok, source: Decoder) returns (value: Option<Tree>)
    modifies source
    ensures match ReadValue(token, old(source.d))
      case Some(parsed) => value == Some(parsed.tree) && source.d == parsed.dec
      case None => value == None
    decreases |source.d.rest|, 1
  {
    match token
    case Delim(c) =>
      if c == '{' {
        value := ParseObject(source);
      } else if c == '[' {
        value := ParseArray(source);
      } else {
        value := None;
      }
    case Lit(l) =>
      value := ParseLiteral(l);
  }

  method Parse(source: seq<Lexeme>) returns (res: Option<Tree>)
    ensures res == ReadAll(source)
  {
    var dec := new Decoder(source);
    var first := dec.Next();
    if !first.Got? {
      return None;
    }
    res := ParseValue(first.tok, dec);
    if res.None? {
      return None;
    }
    var last := dec.Next();
    if !last.End? {
      return None;
    }
  }

  method ParseObject(source: Decoder) returns (value: Option<Tree>)
    modifies source
    ensures match ReadObject(old(source.d), map[])
      case Some(parsed) => value == Some(parsed.tree) && source.d == parsed.dec
      case None => value == None
    decreases |source.d.rest|, 0
  {
    var result: map<string, Tree> := map[];
    while true
      invariant ReadObject(old(source.d), map[]) == ReadObject(source.d, result)
      invariant |source.d.rest| <= |old(source.d.rest)|
      decreases |source.d.rest|
    {
      var key := source.Next();
      if !key.Got? {
        return None;
      }
      match key.tok {
        case Delim(c) =>
          return if c == '}' then Some(TTable([], result)) else None;
        case Lit(l) =>
          if !l.Quoted? {
            return None;
          }
          var token := source.Next();
          if !token.Got? {
            return None;
          }
          var v := ParseValue(token.tok, source);
          if v.None? {
            return None;
          }
          result := result[l.s := v.value];
      }
    }
  }

  method ParseArray(source: Decoder) returns (value: Option<Tree>)
    modifies source
    ensures match ReadArray(old(source.d), [])
      case Some(parsed) => value == Some(parsed.tree) && source.d == parsed.dec
      case None => value == None
    decreases |source.d.rest|, 0
  {
    var result: seq<Tree> := [];
    while true
      invariant ReadArray(old(source.d), []) == ReadArray(source.d, result)
      invariant |source.d.rest| <= |old(source.d.rest)|
      decreases |source.d.rest|
    {
      var token := source.Next();
      if !token.Got? {
        return None;
      }
      if token.tok == Delim(']') {
        return Some(TTable(result, map[]));
      }
      var v := ParseValue(token.tok, source);
      if v.None? {
        return None;
      }
      result := result + [v.value];
    }
  }
}
