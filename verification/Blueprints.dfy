/**
 From tokens to requests (internal/scenario/scenario.go): the parsing loop, which fills one request
 after another in place, and the extraction of a token's text.
 */
module Blueprints {
  import opened Prelude
  import opened GoStrings
  import opened LuaAutomaton
  import opened Lexing
  import opened ScenarioParser

  datatype Slot = PreScript | RetryScript | AssertScript | PostScript

  datatype ParseError =
    | BadToken(lexical: LexError)
    | DefinedTwice(slot: Slot)
    | EmptyRequest

  /** What a request blueprint holds, apart from the source and the file name all requests of a file share. */
  datatype Blueprint =
    Blueprint(name: string, content: seq<Token>, pre: Token, retry: Token, asserts: Token, post: Token)

  const EMPTY_BLUEPRINT := Blueprint("", [], NO_TOKEN, NO_TOKEN, NO_TOKEN, NO_TOKEN)

  predicate IsLifecycle(name: string) {
    name == "PRE" || name == "RETRY" || name == "ASSERT" || name == "POST"
  }

  function SlotName(slot: Slot): string {
    match slot
    case PreScript => "PRE"
    case RetryScript => "RETRY"
    case AssertScript => "ASSERT"
    case PostScript => "POST"
  }

  // ----- payloads -----

  /** The bytes of a text with each backslash dropped and the byte behind it kept, whatever it is. */
  function Unescape(source: string, i: nat, end: nat): string
    requires end <= |source|
    decreases |source| - i
  {
    if i >= end then ""
    else if source[i] != '\\' then [source[i]] + Unescape(source, i + 1, end)
    else if i + 1 < |source| then [source[i + 1]] + Unescape(source, i + 2, end)
    else ""
  }

  predicate InSource(source: string, t: Token) {
    0 <= t.payloadStart <= t.payloadEnd <= |source| && t.payloadStart < |source|
  }

  function Payload(source: string, t: Token): string {
    if !InSource(source, t) then ""
    else if t.kind != Text || !t.hasEscapes then source[t.payloadStart..t.payloadEnd]
    else Unescape(source, t.payloadStart, t.payloadEnd)
  }

  /** One past the last byte that unescaping [i, end) reads. */
  function ReadsUpTo(source: string, i: nat, end: nat): (n: nat)
    requires end <= |source|
    ensures i <= end ==> end <= n <= end + 1
    decreases end - i
  {
    if i >= end then i else if source[i] == '\\' then ReadsUpTo(source, i + 2, end) else ReadsUpTo(source, i + 1, end)
  }

  /** What keeps extraction from panicking: room to allocate, and no backslash as the very last byte read. */
  predicate ExtractsSafely(source: string, t: Token) {
    InSource(source, t) && t.kind == Text && t.hasEscapes ==>
      && t.payloadEnd - t.payloadStart - 1 >= 0
      && ReadsUpTo(source, t.payloadStart, t.payloadEnd) <= |source|
  }

  function SetScriptIn(b: Blueprint, t: Token): Result<Blueprint, ParseError> {
    if t.name == "PRE" then
      if b.pre.kind != IncompleteToken then Failure(DefinedTwice(PreScript)) else Success(b.(pre := t))
    else if t.name == "RETRY" then
      if b.retry.kind != IncompleteToken then Failure(DefinedTwice(RetryScript)) else Success(b.(retry := t))
    else if t.name == "ASSERT" then
      if b.asserts.kind != IncompleteToken then Failure(DefinedTwice(AssertScript)) else Success(b.(asserts := t))
    else if t.name == "POST" then
      if b.post.kind != IncompleteToken then Failure(DefinedTwice(PostScript)) else Success(b.(post := t))
    else Success(b.(content := b.content + [t]))
  }

  class RequestBlueprint {
    const source: string
    const filename: string
    var name: string
    var content: seq<Token>
    var pre: Token
    var retry: Token
    var asserts: Token
    var post: Token

    constructor (source: string, filename: string)
      ensures this.source == source && this.filename == filename && View() == EMPTY_BLUEPRINT
    {
      this.source, this.filename := source, filename;
      name, content := "", [];
      pre, retry, asserts, post := NO_TOKEN, NO_TOKEN, NO_TOKEN, NO_TOKEN;
    }

    function View(): Blueprint
      reads this
    {
      Blueprint(name, content, pre, retry, asserts, post)
    }

    function ScriptIn(slot: Slot): Token
      reads this
    {
      match slot
      case PreScript => pre
      case RetryScript => retry
      case AssertScript => asserts
      case PostScript => post
    }

    /**
     It fails if and only if the token has the name of a slot that is taken, and changes nothing then.  Otherwise the
     token is in its slot, or behind the content if it has another name, and all else is as before.
     */
    method SetScript(t: Token) returns (r: Result<(), ParseError>)
      modifies this
      ensures forall slot :: t.name == SlotName(slot) ==>
        r == if old(ScriptIn(slot)).kind != IncompleteToken then Failure(DefinedTwice(slot)) else Success(())
      ensures !IsLifecycle(t.name) ==> r == Success(()) && content == old(content) + [t]
      ensures IsLifecycle(t.name) ==> content == old(content)
      ensures forall slot ::
        ScriptIn(slot) == if r.Success? && t.name == SlotName(slot) then t else old(ScriptIn(slot))
      ensures name == old(name)
      ensures match SetScriptIn(old(View()), t)
        case Success(b) => r == Success(()) && View() == b
        case Failure(e) => r == Failure(e) && View() == old(View())
    {
      if t.name == "PRE" {
        if pre.kind != IncompleteToken {
          return Failure(DefinedTwice(PreScript));
        }
        pre := t;
      } else if t.name == "RETRY" {
        if retry.kind != IncompleteToken {
          return Failure(DefinedTwice(RetryScript));
        }
        retry := t;
      } else if t.name == "ASSERT" {
        if asserts.kind != IncompleteToken {
          return Failure(DefinedTwice(AssertScript));
        }
        asserts := t;
      } else if t.name == "POST" {
        if post.kind != IncompleteToken {
          return Failure(DefinedTwice(PostScript));
        }
        post := t;
      } else {
        content := content + [t];
      }
      return Success(());
    }

    method ExtractPayload(t: Token) returns (bytes: string)
      requires ExtractsSafely(source, t)
      ensures bytes == Payload(source, t)
    {
      if InSource(source, t) {
        bytes := EscapePayload(t);
      } else {
        bytes := "";
      }
    }

    method EscapePayload(t: Token) returns (bytes: string)
      requires InSource(source, t) && ExtractsSafely(source, t)
      ensures bytes == Payload(source, t)
    {
      if t.kind != Text || !t.hasEscapes {
        return source[t.payloadStart..t.payloadEnd];
      }
      var idx := t.payloadStart;
      bytes := "";
      while idx < t.payloadEnd
        invariant t.payloadStart <= idx <= ReadsUpTo(source, t.payloadStart, t.payloadEnd)
        invariant ReadsUpTo(source, t.payloadStart, t.payloadEnd) == ReadsUpTo(source, idx, t.payloadEnd)
        invariant bytes + Unescape(source, idx, t.payloadEnd) == Payload(source, t)
      {
        if source[idx] == '\\' {
          idx := idx + 1;
        }
        bytes := bytes + [source[idx]];
        idx := idx + 1;
      }
    }
  }

  // ----- the parsing loop as a function of its state -----

  /** The lexer between two tokens: cursor, delimiter held back, numbers used for scripts without a name. */
  datatype Cursor = Cursor(at: nat, pending: Option<Token>, unnamed: nat)

  predicate CursorIn(source: string, c: Cursor) {
    c.at <= |source| && (c.pending.Some? ==> c.pending.value.kind == Delimiter)
  }

  /** The next token and the cursor directly behind it. */
  function LexOnly(source: string, c: Cursor): (r: Result<(Token, Cursor), LexError>)
    requires CursorIn(source, c)
    ensures r.Success? ==> CursorIn(source, r.value.1) && r.value.0.kind != IncompleteToken
    ensures r.Success? && r.value.0.kind != EOF ==>
      r.value.1.at > c.at || (r.value.1.at == c.at && c.pending.Some? && r.value.1.pending.None?)
  {
    if c.pending.Some? then Success((c.pending.value, c.(pending := None)))
    else
      match LexAt(source, c.at, c.unnamed)
      case Failure(e) => Failure(e)
      case Success(lexeme) =>
        Success((lexeme.token, Cursor(lexeme.next, lexeme.pending, c.unnamed + if lexeme.numbered then 1 else 0)))
  }

  /** White space behind a delimiter or a lifecycle script belongs to nothing. */
  predicate SkipsSpace(t: Token) {
    t.kind == Delimiter || (t.kind == Script && IsLifecycle(t.name))
  }

  /** The next token and the cursor behind it and behind the white space that goes with it. */
  function NextToken(source: string, c: Cursor): (r: Result<(Token, Cursor), LexError>)
    requires CursorIn(source, c)
    ensures r.Success? ==> CursorIn(source, r.value.1) && r.value.0.kind != IncompleteToken
    ensures r.Success? && r.value.0.kind != EOF ==>
      r.value.1.at > c.at || (r.value.1.at == c.at && c.pending.Some? && r.value.1.pending.None?)
  {
    match LexOnly(source, c)
    case Failure(e) => Failure(e)
    case Success((t, next)) =>
      Success((t, if SkipsSpace(t) then next.(at := SkipSpace(source, next.at)) else next))
  }

  /** The requests finished so far and the one being filled. */
  datatype Requests = Requests(done: seq<Blueprint>, current: Blueprint)

  function Absorb(source: string, rs: Requests, t: Token): Result<Requests, ParseError> {
    match t.kind
    case Text => Success(rs.(current := rs.current.(content := rs.current.content + [t])))
    case Script =>
      (match SetScriptIn(rs.current, t)
       case Failure(e) => Failure(e)
       case Success(b) => Success(rs.(current := b)))
    case Delimiter =>
      var fresh' := if |rs.current.content| != 0 then Requests(rs.done + [rs.current], EMPTY_BLUEPRINT) else rs;
      Success(fresh'.(current := fresh'.current.(name := Payload(source, t))))
    case _ => Success(rs)
  }

  /** The file's requests at its end: the last one must not be empty. */
  function Finish(rs: Requests): Result<seq<Blueprint>, ParseError> {
    if |rs.current.content| == 0 then Failure(EmptyRequest) else Success(rs.done + [rs.current])
  }

  function ParseFrom(source: string, c: Cursor, rs: Requests): Result<seq<Blueprint>, ParseError>
    requires CursorIn(source, c)
    decreases |source| - c.at, c.pending.Some?
  {
    match NextToken(source, c)
    case Failure(e) => Failure(BadToken(e))
    case Success((t, next)) =>
      if t.kind == EOF then Finish(rs)
      else
        match Absorb(source, rs, t)
        case Failure(e) => Failure(e)
        case Success(absorbed) => ParseFrom(source, next, absorbed)
  }

  function Start(source: string): (c: Cursor)
    ensures CursorIn(source, c)
  {
    Cursor(SkipSpace(source, 0), None, 0)
  }

  /** The requests of a file. */
  function ParseFile(source: string): Result<seq<Blueprint>, ParseError> {
    ParseFrom(source, Start(source), Requests([], EMPTY_BLUEPRINT))
  }

  /** These objects hold these requests; the last one, still being filled, is none of the others. */
  ghost predicate Hold(source: string, filename: string, res: seq<RequestBlueprint>, rs: Requests)
    reads res
  {
    && |res| == |rs.done| + 1
    && (forall i :: 0 <= i < |res| ==> res[i].source == source && res[i].filename == filename)
    && (forall i :: 0 <= i < |rs.done| ==> res[i] != res[|rs.done|] && res[i].View() == rs.done[i])
    && res[|rs.done|].View() == rs.current
  }

  /** The cases of the source's loop, without the white space it consumes after some of them. */
  method AbsorbToken(source: string, filename: string, res: seq<RequestBlueprint>, t: Token, ghost rs: Requests)
    returns (err: Result<(), ParseError>, res': seq<RequestBlueprint>)
    requires Hold(source, filename, res, rs)
    requires t.kind == Delimiter ==> ExtractsSafely(source, t)
    modifies res[|res| - 1]
    ensures res <= res' && |res'| <= |res| + 1 && forall i :: |res| <= i < |res'| ==> fresh(res'[i])
    ensures match Absorb(source, rs, t)
      case Failure(e) => err == Failure(e)
      case Success(absorbed) => err == Success(()) && Hold(source, filename, res', absorbed)
  {
    var currentRes := res[|res| - 1];
    err, res' := Success(()), res;
    match t.kind {
      case Text =>
        currentRes.content := currentRes.content + [t];
      case Script =>
        err := currentRes.SetScript(t);
      case Delimiter =>
        if |currentRes.content| != 0 {
          currentRes := new RequestBlueprint(source, filename);
          res' := res + [currentRes];
        }
        currentRes.name := currentRes.ExtractPayload(t);
      case _ =>
    }
  }

  ghost predicate At(parser: Parser, c: Cursor)
    reads parser, parser.scanner
  {
    && parser.Valid()
    && CursorIn(parser.scanner.source, c) && c.at == parser.scanner.current && c.unnamed == parser.unnamedScriptIdx
    && parser.delimiterToken == (if c.pending.Some? then c.pending.value else NO_TOKEN)
  }

  /** The parsing loop's way to its next token. */
  method LexNext(parser: Parser, ghost c: Cursor) returns (r: Result<Token, LexError>)
    requires At(parser, c)
    modifies parser, parser.scanner
    ensures match LexOnly(parser.scanner.source, c)
      case Failure(e) => r == Failure(e)
      case Success((t, next)) => r == Success(t) && At(parser, next)
  {
    r := parser.LexToken();
  }

  /** One turn of the parsing loop; `more` is false at the end of the file. */
  method ParseToken(parser: Parser, filename: string, res: seq<RequestBlueprint>, ghost c: Cursor, ghost rs: Requests)
    returns (err: Result<(), ParseError>, res': seq<RequestBlueprint>, more: bool)
    requires At(parser, c) && Hold(parser.scanner.source, filename, res, rs)
    modifies parser, parser.scanner, res[|res| - 1]
    ensures res <= res' && |res'| <= |res| + 1 && forall i :: |res| <= i < |res'| ==> fresh(res'[i])
    ensures match NextToken(parser.scanner.source, c)
      case Failure(e) => err == Failure(BadToken(e))
      case Success((t, next)) =>
        if t.kind == EOF then err == Success(()) && !more && Hold(parser.scanner.source, filename, res', rs)
        else
          match Absorb(parser.scanner.source, rs, t)
          case Failure(e) => err == Failure(e)
          case Success(absorbed) =>
            err == Success(()) && more && At(parser, next) && Hold(parser.scanner.source, filename, res', absorbed)
  {
    err, res', more := Success(()), res, true;
    var lexed := LexNext(parser, c);
    if lexed.Failure? {
      err := Failure(BadToken(lexed.error));
      return;
    }
    var t := lexed.value;
    if t.kind == EOF {
      more := false;
      return;
    }
    err, res' := AbsorbToken(parser.scanner.source, filename, res, t, rs);
    if err.Success? && SkipsSpace(t) {
      parser.ConsumeWhitespace();
    }
  }

  method ParseRequestBlueprints(source: string, filename: string)
    returns (r: Result<seq<RequestBlueprint>, ParseError>)
    ensures match ParseFile(source)
      case Failure(e) => r == Failure(e)
      case Success(bs) => r.Success? && |r.value| == |bs| && forall i :: 0 <= i < |bs| ==> r.value[i].View() == bs[i]
    ensures r.Success? ==> forall i :: 0 <= i < |r.value| ==>
      fresh(r.value[i]) && r.value[i].source == source && r.value[i].filename == filename
  {
    var currentRes := new RequestBlueprint(source, filename);
    var res := [currentRes];
    var parser := new Parser(source);
    parser.ConsumeWhitespace();

    ghost var c, rs := Start(source), Requests([], EMPTY_BLUEPRINT);
    var more := true;
    while more
      invariant fresh(parser) && fresh(parser.scanner) && parser.scanner.source == source
      invariant forall i :: 0 <= i < |res| ==> fresh(res[i])
      invariant Hold(source, filename, res, rs)
      invariant more ==> At(parser, c) && ParseFile(source) == ParseFrom(source, c, rs)
      invariant more || ParseFile(source) == Finish(rs)
      decreases more, |source| - c.at, c.pending.Some?
    {
      ghost var next, before := NextToken(source, c), res;
      var err;
      err, res, more := ParseToken(parser, filename, res, c, rs);
      assert forall i :: 0 <= i < |before| ==> res[i] == before[i];
      if err.Failure? {
        return Failure(err.error);
      }
      if more {
        rs, c := Absorb(source, rs, next.value.0).value, next.value.1;
      }
    }
    if |res[|res| - 1].content| == 0 {
      return Failure(EmptyRequest);
    }
    return Success(res);
  }
}
