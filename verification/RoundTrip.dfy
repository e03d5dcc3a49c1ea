/**
 Writing requests down as a `.sinq` file and parsing the file gives the requests back.

 Names follow `###`, lifecycle scripts stand one to a line, a `\` goes before each `\`, `$` and `#` of a text, and a
 newline separates one request from the next.  The proof goes through the file as the parsing loop does, one token at a
 time: first what the lexer makes of a text, a script and a delimiter line, then what one turn of the loop makes of each
 token, then content, scripts and requests.
 */
module RoundTrip {
  import opened Prelude
  import opened GoStrings
  import opened LuaAutomaton
  import opened Lexing
  import opened Blueprints
  import opened TokenTiling
  import opened Positions

  /** A script may be written without a name. */
  datatype Segment = Plain(text: string) | Embedded(name: string, body: string)

  datatype Request = Request(
    name: string,
    pre: Option<string>,
    retry: Option<string>,
    asserts: Option<string>,
    post: Option<string>,
    content: seq<Segment>)

  // ----- writing -----

  predicate NeedsEscape(b: char) {
    b == '\\' || b == '$' || b == '#'
  }

  function EscapeByte(b: char): string {
    if NeedsEscape(b) then ['\\', b] else [b]
  }

  function Escape(text: string): string {
    if text == "" then "" else EscapeByte(text[0]) + Escape(text[1..])
  }

  function PrintScript(name: string, body: string): string {
    "$" + name + "{" + body + "}"
  }

  function PrintLifecycle(name: string, body: Option<string>): string {
    match body
    case None => ""
    case Some(b) => PrintScript(name, b) + "\n"
  }

  function PrintSegment(s: Segment): string {
    match s
    case Plain(text) => Escape(text)
    case Embedded(name, body) => PrintScript(name, body)
  }

  function PrintContent(segments: seq<Segment>): string {
    if segments == [] then ""
    else PrintSegment(segments[0]) + PrintContent(segments[1..])
  }

  function PrintScripts(r: Request): string {
    PrintLifecycle("PRE", r.pre) + (PrintLifecycle("RETRY", r.retry)
    + (PrintLifecycle("ASSERT", r.asserts) + PrintLifecycle("POST", r.post)))
  }

  function PrintHeader(name: string): string {
    "###" + (" " + name)
  }

  function PrintBody(r: Request): string {
    PrintScripts(r) + PrintContent(r.content)
  }

  function PrintRequest(r: Request): string {
    PrintHeader(r.name) + ("\n" + PrintBody(r))
  }

  function PrintFile(rs: seq<Request>): string {
    if rs == [] then ""
    else PrintRequest(rs[0]) + (if |rs| > 1 then "\n" + PrintFile(rs[1..]) else "")
  }

  // ----- what can be written -----

  predicate WritableName(name: string) {
    && (forall k :: 0 <= k < |name| ==> name[k] != '\n')
    && (name != "" ==> !IsSpace(name[0]) && !IsSpace(name[|name| - 1]))
  }

  ghost predicate WritableSegment(s: Segment) {
    match s
    case Plain(text) => text != ""
    case Embedded(name, body) =>
      && !IsLifecycle(name) && LeadingSpace(name) == 0 && TrailingSpace(name) == 0
      && (forall k :: 0 <= k < |name| ==> name[k] != '{' && name[k] != '\n')
      && Acceptable(body)
  }

  /** Two texts never stand side by side: the lexer would read them as one. */
  ghost predicate WritableContent(segments: seq<Segment>) {
    segments != [] ==>
      && WritableSegment(segments[0])
      && !(|segments| > 1 && segments[0].Plain? && segments[1].Plain?)
      && WritableContent(segments[1..])
  }

  ghost predicate WritableBody(body: Option<string>) {
    body.Some? ==> Acceptable(body.value)
  }

  ghost predicate Writable(r: Request) {
    forall fold {:trigger Look(fold)} :: Look(fold) && fold == Writings ==>
      && WritableName(r.name)
      && WritableBody(r.pre) && WritableBody(r.retry) && WritableBody(r.asserts) && WritableBody(r.post)
      && r.content != [] && WritableContent(r.content)
      && (r.content[0].Plain? ==> r.content[0].text != "" && !IsSpace(r.content[0].text[0]))
  }

  // ----- numbering -----

  /** Scripts without a name are numbered throughout the file. */
  function NameOf(name: string, unnamed: nat): string {
    if name == "" then "Unnamed_" + Decimal(unnamed) else name
  }

  function NumberUsed(s: Segment): nat {
    if s.Embedded? && s.name == "" then 1 else 0
  }

  function NumbersUsed(segments: seq<Segment>): nat {
    if segments == [] then 0 else NumberUsed(segments[0]) + NumbersUsed(segments[1..])
  }

  function Numbered(s: Segment, unnamed: nat): Segment {
    match s
    case Plain(_) => s
    case Embedded(name, body) => Embedded(NameOf(name, unnamed), body)
  }

  function ContentNumbered(segments: seq<Segment>, unnamed: nat): seq<Segment> {
    if segments == [] then []
    else [Numbered(segments[0], unnamed)] + ContentNumbered(segments[1..], unnamed + NumberUsed(segments[0]))
  }

  function RequestNumbered(r: Request, unnamed: nat): Request {
    r.(content := ContentNumbered(r.content, unnamed))
  }

  function FileNumbered(reqs: seq<Request>, unnamed: nat): (rs: seq<Request>)
    ensures |rs| == |reqs|
  {
    if reqs == [] then []
    else [RequestNumbered(reqs[0], unnamed)] + FileNumbered(reqs[1..], unnamed + NumbersUsed(reqs[0].content))
  }

  // ----- reading back -----

  function SegmentOf(source: string, t: Token): Segment {
    if t.kind == Script then Embedded(t.name, Payload(source, t)) else Plain(Payload(source, t))
  }

  function ScriptOf(source: string, t: Token): Option<string> {
    if t.kind == IncompleteToken then None else Some(Payload(source, t))
  }

  function SegmentsOf(source: string, ts: seq<Token>): seq<Segment> {
    if ts == [] then [] else [SegmentOf(source, ts[0])] + SegmentsOf(source, ts[1..])
  }

  function RequestOf(source: string, b: Blueprint): Request {
    Request(b.name, ScriptOf(source, b.pre), ScriptOf(source, b.retry), ScriptOf(source, b.asserts),
            ScriptOf(source, b.post), SegmentsOf(source, b.content))
  }

  // ----- texts -----

  lemma EscapedByteIsPlain(source: string, start: nat, p: nat, b: char, e: nat)
    requires start <= p && Stands(source, p, EscapeByte(b)) && !Escaped(source, start, p)
    requires p + |EscapeByte(b)| <= e <= |source|
    ensures var q := p + |EscapeByte(b)|;
      && StopPos(source, start, p) == StopPos(source, start, q)
      && !Escaped(source, start, q)
      && Unescape(source, p, e) == [b] + Unescape(source, q, e)
  {
    StandsByte(source, p, EscapeByte(b), 0);
    if NeedsEscape(b) {
      StandsByte(source, p, EscapeByte(b), 1);
      assert StopPos(source, start, p) == StopPos(source, start, p + 1) == StopPos(source, start, p + 2);
    } else {
      assert StopPos(source, start, p) == StopPos(source, start, p + 1);
    }
  }

  lemma EscapedSplit(source: string, p: nat, text: string)
    requires text != "" && Stands(source, p, Escape(text))
    ensures var q := p + |EscapeByte(text[0])|;
      && Stands(source, p, EscapeByte(text[0])) && Stands(source, q, Escape(text[1..]))
      && q + |Escape(text[1..])| == p + |Escape(text)|
  {
    StandsSplit(source, p, EscapeByte(text[0]), Escape(text[1..]));
  }

  /** Escaped text has nothing in it that stops the lexer, leaves it unescaped behind, and unescapes to itself. */
  lemma {:induction false} EscapedTextIsPlain(source: string, start: nat, p: nat, text: string, e: nat)
    requires start <= p && Stands(source, p, Escape(text)) && !Escaped(source, start, p) && e == p + |Escape(text)|
    ensures StopPos(source, start, p) == StopPos(source, start, e)
    ensures !Escaped(source, start, e)
    ensures Unescape(source, p, e) == text
    decreases |text|
  {
    if text != "" {
      var b, more := text[0], text[1..];
      EscapedSplit(source, p, text);
      EscapedByteIsPlain(source, start, p, b, e);
      EscapedTextIsPlain(source, start, p + |EscapeByte(b)|, more, e);
      assert text == [b] + more;
    }
  }

  /** The place `e` where a request's content ends: the file does, or a delimiter line follows. */
  predicate ContentEnds(source: string, e: nat) {
    || e == |source|
    || (e + 4 <= |source| && source[e] == '\n' && HashLine(source, e + 1) && IndexFrom(source, e + 4, '\n') < |source|)
  }

  /** LexText for a text known to end at `e`. */
  lemma LexTextTo(source: string, p: nat, e: nat) returns (next: nat, pending: Option<Token>, stop: nat)
    requires p < e <= |source| && !Escaped(source, p, e) && StopPos(source, p, p) == StopPos(source, p, e)
    requires ContentEnds(source, e) || source[e] == '$'
    ensures e <= stop <= |source|
    ensures LexText(source, p) ==
      Success(Lexeme(TextToken(source, p, e, HasBackslash(source, p, stop)), next, pending, false))
    ensures if e == |source| || source[e] == '$' then next == e && pending.None?
            else next == IndexFrom(source, e + 4, '\n') && pending == Some(DelimiterToken(source, e + 1, next))
  {
    if e == |source| || source[e] == '$' {
      next, pending, stop := e, None, e;
    } else {
      next, stop := IndexFrom(source, e + 4, '\n'), e + 1;
      pending := Some(DelimiterToken(source, e + 1, next));
      assert !Stops(source, p, e) && Stops(source, p, e + 1);
      assert StopPos(source, p, e) == StopPos(source, p, e + 1) == e + 1;
    }
  }

  lemma TextLexes(source: string, p: nat, text: string) returns (t: Token, next: nat, pending: Option<Token>)
    requires text != "" && Stands(source, p, Escape(text))
    requires var e := p + |Escape(text)|; ContentEnds(source, e) || source[e] == '$'
    ensures p < |source| && source[p] != '$' && LexText(source, p) == Success(Lexeme(t, next, pending, false))
    ensures t.kind == Text && Payload(source, t) == text
    ensures var e := p + |Escape(text)|;
      if e == |source| || source[e] == '$' then next == e && pending.None?
      else next == IndexFrom(source, e + 4, '\n') && pending == Some(DelimiterToken(source, e + 1, next))
  {
    var e := p + |Escape(text)|;
    StandsByte(source, p, Escape(text), 0);
    EscapedTextIsPlain(source, p, p, text, e);
    var stop;
    next, pending, stop := LexTextTo(source, p, e);
    t := TextToken(source, p, e, HasBackslash(source, p, stop));
    PayloadOfText(source, p, stop, e, t);
    assert HasBackslash(source, p, e) ==> HasBackslash(source, p, stop);
  }

  // ----- scripts -----

  lemma ScriptNameLexes(source: string, p: nat, name: string)
    requires Stands(source, p, "$" + name + "{")
    requires forall k :: 0 <= k < |name| ==> name[k] != '{' && name[k] != '\n'
    ensures var n := p + 1 + |name|;
      n < |source| && source[p] == '$' && source[n] == '{' && NameEnd(source, p + 1) == n && source[p + 1..n] == name
  {
    var n := p + 1 + |name|;
    StandsSplit(source, p, "$" + name, "{");
    StandsSplit(source, p, "$", name);
    StandsByte(source, p, "$", 0);
    StandsByte(source, n, "{", 0);
    forall k | p + 1 <= k < n
      ensures source[k] != '{' && source[k] != '\n'
    {
      StandsByte(source, p + 1, name, k - p - 1);
    }
    NameEndIs(source, p + 1, n);
    StandsSlice(source, p + 1, name);
  }

  lemma ScriptBodyLexes(source: string, p: nat, n: nat, name: string, body: string, numbered: bool) returns (t: Token)
    requires p < n < |source| && Stands(source, n + 1, body + "}") && Acceptable(body)
    ensures LexBody(source, p, n, name, numbered) == Success(Lexeme(t, n + 1 + |body| + 1, None, numbered))
    ensures t.kind == Script && t.name == name && Payload(source, t) == body
  {
    AcceptableIff(body);
    var closed := body + "}";
    assert closed[0..|body| + 1] == closed;
    StandsSlice(source, n + 1, closed);
    RunIsPrefixStable(closed, 0, source, n + 1, Code, 0);
    StandsSplit(source, n + 1, body, "}");
    StandsSlice(source, n + 1, body);
    t := LexBody(source, p, n, name, numbered).value.token;
  }

  lemma NameIsTaken(source: string, p: nat, n: nat, name: string, unnamed: nat)
    requires p < n < |source| && source[p] == '$' && source[n] == '{' && NameEnd(source, p + 1) == n
      && source[p + 1..n] == name
    requires LeadingSpace(name) == 0 && TrailingSpace(name) == 0
    ensures LexScript(source, p, unnamed) == LexBody(source, p, n, NameOf(name, unnamed), name == "")
  {
    assert TrimSpace(name) == name;
  }

  /** A script is one token, and one without a name gets the next number for its name. */
  lemma ScriptLexes(source: string, p: nat, name: string, body: string, unnamed: nat) returns (t: Token)
    requires Stands(source, p, PrintScript(name, body)) && Acceptable(body)
    requires LeadingSpace(name) == 0 && TrailingSpace(name) == 0
    requires forall k :: 0 <= k < |name| ==> name[k] != '{' && name[k] != '\n'
    ensures p < |source| && source[p] == '$' && p + |PrintScript(name, body)| <= |source|
    ensures LexScript(source, p, unnamed) == Success(Lexeme(t, p + |PrintScript(name, body)|, None, name == ""))
    ensures t.kind == Script && t.name == NameOf(name, unnamed) && Payload(source, t) == body
  {
    var n := p + 1 + |name|;
    assert PrintScript(name, body) == ("$" + name + "{") + (body + "}");
    StandsSplit(source, p, "$" + name + "{", body + "}");
    ScriptNameLexes(source, p, name);
    NameIsTaken(source, p, n, name, unnamed);
    t := ScriptBodyLexes(source, p, n, NameOf(name, unnamed), body, name == "");
  }

  // ----- one turn of the parsing loop -----

  type Parse = (Cursor, Requests) -> Result<seq<Blueprint>, ParseError>

  /** `parse` is ParseFrom by another name, one that the verifier does not unfold. */
  ghost predicate Parses(source: string, parse: Parse) {
    forall c, rs {:trigger ParseFrom(source, c, rs)} :: CursorIn(source, c) ==> parse(c, rs) == ParseFrom(source, c, rs)
  }

  ghost function ParserOf(source: string): (parse: Parse)
    ensures Parses(source, parse)
  {
    (c, rs) => if CursorIn(source, c) then ParseFrom(source, c, rs) else Failure(EmptyRequest)
  }

  lemma Turn(source: string, parse: Parse, c: Cursor, rs: Requests, t: Token, next: Cursor)
    requires Parses(source, parse)
    requires CursorIn(source, c) && NextToken(source, c) == Success((t, next)) && t.kind != EOF
    requires Absorb(source, rs, t).Success?
    ensures parse(c, rs) == parse(next, Absorb(source, rs, t).value)
  {
    assert ParseFrom(source, c, rs) == ParseFrom(source, next, Absorb(source, rs, t).value);
  }

  lemma ScriptIsNext(source: string, p: nat, t: Token, q: nat, numbered: bool, unnamed: nat)
    requires p < |source| && source[p] == '$' && q <= |source| && t.kind == Script
    requires LexScript(source, p, unnamed) == Success(Lexeme(t, q, None, numbered))
    ensures NextToken(source, Cursor(p, None, unnamed)) == Success((t,
      Cursor(if IsLifecycle(t.name) then SkipSpace(source, q) else q, None, unnamed + if numbered then 1 else 0)))
  {
  }

  /** A script at `p`, and the white space behind it if it is a lifecycle script. */
  lemma ScriptTurn(source: string, parse: Parse, p: nat, t: Token, q: nat, numbered: bool, rs: Requests, unnamed: nat)
    requires Parses(source, parse) && p < |source| && source[p] == '$' && q <= |source|
    requires LexScript(source, p, unnamed) == Success(Lexeme(t, q, None, numbered))
    requires t.kind == Script && Absorb(source, rs, t).Success?
    ensures parse(Cursor(p, None, unnamed), rs)
         == parse(Cursor(if IsLifecycle(t.name) then SkipSpace(source, q) else q, None,
           unnamed + if numbered then 1 else 0),
                  Absorb(source, rs, t).value)
  {
    ScriptIsNext(source, p, t, q, numbered, unnamed);
    var next := Cursor(if IsLifecycle(t.name) then SkipSpace(source, q) else q, None,
      unnamed + if numbered then 1 else 0);
    Turn(source, parse, Cursor(p, None, unnamed), rs, t, next);
  }

  function AddContent(rs: Requests, ts: seq<Token>): Requests {
    rs.(current := rs.current.(content := rs.current.content + ts))
  }

  /** Where parsing stands once a request's content and the delimiter behind it, if any, are read. */
  function AfterContent(
    source: string, parse: Parse, e: nat, rs: Requests, unnamed: nat): Result<seq<Blueprint>, ParseError>
    requires ContentEnds(source, e)
  {
    if e == |source| then Finish(rs)
    else
      var n := IndexFrom(source, e + 4, '\n');
      parse(Cursor(SkipSpace(source, n), None, unnamed), Absorb(source, rs, DelimiterToken(source, e + 1, n)).value)
  }

  /** What is read of a delimiter whose newline is not read yet. */
  lemma DelimiterLexes(source: string, e: nat)
    requires ContentEnds(source, e) && e < |source|
    ensures var n := IndexFrom(source, e + 4, '\n');
      n < |source| && LexText(source, e) == Success(Lexeme(DelimiterToken(source, e + 1, n), n, None, false))
  {
    assert !Stops(source, e, e) && Stops(source, e, e + 1);
    assert StopPos(source, e, e) == StopPos(source, e, e + 1) == e + 1;
  }

  lemma TextOrDelimiterIsNext(source: string, p: nat, unnamed: nat, lexeme: Lexeme)
    requires p < |source| && source[p] != '$' && LexText(source, p) == Success(lexeme)
    ensures LexOnly(source, Cursor(p, None, unnamed)) ==
      Success((lexeme.token, Cursor(lexeme.next, lexeme.pending, unnamed)))
  {
  }

  lemma DelimiterTurn(source: string, parse: Parse, e: nat, c: Cursor, rs: Requests)
    requires Parses(source, parse)
    requires ContentEnds(source, e) && e < |source| && CursorIn(source, c)
    requires var n := IndexFrom(source, e + 4, '\n');
      || c == Cursor(e, None, c.unnamed)
      || c == Cursor(n, Some(DelimiterToken(source, e + 1, n)), c.unnamed)
    ensures parse(c, rs) == AfterContent(source, parse, e, rs, c.unnamed)
  {
    var n := IndexFrom(source, e + 4, '\n');
    var t := DelimiterToken(source, e + 1, n);
    if c.pending.None? {
      DelimiterLexes(source, e);
      TextOrDelimiterIsNext(source, e, c.unnamed, Lexeme(t, n, None, false));
    }
    Turn(source, parse, c, rs, t, Cursor(SkipSpace(source, n), None, c.unnamed));
  }

  lemma TextTurn(
    source: string, parse: Parse, p: nat, t: Token, next: nat, pending: Option<Token>, rs: Requests, unnamed: nat)
    requires Parses(source, parse) && p < |source| && source[p] != '$' && t.kind == Text
    requires LexText(source, p) == Success(Lexeme(t, next, pending, false))
    ensures CursorIn(source, Cursor(next, pending, unnamed))
    ensures parse(Cursor(p, None, unnamed), rs) == parse(Cursor(next, pending, unnamed), AddContent(rs, [t]))
  {
    TextOrDelimiterIsNext(source, p, unnamed, Lexeme(t, next, pending, false));
    Turn(source, parse, Cursor(p, None, unnamed), rs, t, Cursor(next, pending, unnamed));
  }

  lemma EmbeddedIsContent(name: string, unnamed: nat)
    requires !IsLifecycle(name)
    ensures !IsLifecycle(NameOf(name, unnamed))
  {
    if name == "" {
      assert NameOf(name, unnamed)[0] == 'U';
    }
  }

  lemma EmbeddedTurn(source: string, parse: Parse, p: nat, name: string, body: string, rs: Requests, unnamed: nat)
    returns (t: Token)
    requires Parses(source, parse)
    requires Stands(source, p, PrintScript(name, body)) && WritableSegment(Embedded(name, body))
    ensures SegmentOf(source, t) == Numbered(Embedded(name, body), unnamed)
    ensures parse(Cursor(p, None, unnamed), rs)
         == parse(Cursor(p + |PrintScript(name, body)|, None, unnamed + NumberUsed(Embedded(name, body))),
           AddContent(rs, [t]))
  {
    t := ScriptLexes(source, p, name, body, unnamed);
    EmbeddedIsContent(name, unnamed);
    ScriptTurn(source, parse, p, t, p + |PrintScript(name, body)|, name == "", rs, unnamed);
  }

  lemma AtContentEnd(source: string, parse: Parse, e: nat, rs: Requests, unnamed: nat)
    requires Parses(source, parse) && ContentEnds(source, e)
    ensures parse(Cursor(e, None, unnamed), rs) == AfterContent(source, parse, e, rs, unnamed)
  {
    if e == |source| {
      assert ParseFrom(source, Cursor(e, None, unnamed), rs) == Finish(rs);
    } else {
      DelimiterTurn(source, parse, e, Cursor(e, None, unnamed), rs);
    }
  }

  /** A text read together with the delimiter that closes it leads where the two, read apart, lead. */
  lemma {:induction false} PlainTurn(
    source: string, parse: Parse, p: nat, text: string, rs: Requests, unnamed: nat) returns (t: Token)
    requires Parses(source, parse)
    requires text != "" && Stands(source, p, Escape(text))
    requires var e := p + |Escape(text)|; ContentEnds(source, e) || source[e] == '$'
    ensures SegmentOf(source, t) == Plain(text)
    ensures parse(Cursor(p, None, unnamed), rs) == parse(Cursor(p + |Escape(text)|, None, unnamed), AddContent(rs, [t]))
  {
    var e := p + |Escape(text)|;
    var next, pending;
    t, next, pending := TextLexes(source, p, text);
    TextTurn(source, parse, p, t, next, pending, rs, unnamed);
    if e < |source| && source[e] != '$' {
      DelimiterTurn(source, parse, e, Cursor(next, pending, unnamed), AddContent(rs, [t]));
      AtContentEnd(source, parse, e, AddContent(rs, [t]), unnamed);
    }
  }

  /** What may follow a segment: a text ends at a script, or where the content does. */
  predicate SegmentEnds(source: string, s: Segment, e: nat) {
    s.Plain? ==> ContentEnds(source, e) || (e < |source| && source[e] == '$')
  }

  lemma SegmentTurn(source: string, parse: Parse, p: nat, s: Segment, rs: Requests, unnamed: nat) returns (t: Token)
    requires Parses(source, parse)
    requires Stands(source, p, PrintSegment(s)) && WritableSegment(s)
    requires SegmentEnds(source, s, p + |PrintSegment(s)|)
    ensures SegmentOf(source, t) == Numbered(s, unnamed)
    ensures parse(Cursor(p, None, unnamed), rs)
         == parse(Cursor(p + |PrintSegment(s)|, None, unnamed + NumberUsed(s)), AddContent(rs, [t]))
  {
    match s
    case Plain(text) => t := PlainTurn(source, parse, p, text, rs, unnamed);
    case Embedded(name, body) => t := EmbeddedTurn(source, parse, p, name, body, rs, unnamed);
  }

  lemma EmbeddedBeginsWithDollar(source: string, p: nat, segments: seq<Segment>)
    requires Stands(source, p, PrintContent(segments)) && segments != [] && segments[0].Embedded?
    ensures p < |source| && source[p] == '$'
  {
    StandsByte(source, p, PrintContent(segments), 0);
  }

  lemma FirstSegmentEnds(source: string, p: nat, e: nat, segments: seq<Segment>)
    requires segments != [] && WritableContent(segments) && ContentEnds(source, e)
    requires var p' := p + |PrintSegment(segments[0])|;
      Stands(source, p', PrintContent(segments[1..])) && e == p' + |PrintContent(segments[1..])|
    ensures SegmentEnds(source, segments[0], p + |PrintSegment(segments[0])|)
  {
    if segments[0].Plain? && |segments| > 1 {
      EmbeddedBeginsWithDollar(source, p + |PrintSegment(segments[0])|, segments[1..]);
    }
  }

  lemma {:induction false} ContentSplit(source: string, p: nat, segments: seq<Segment>)
    requires segments != [] && Stands(source, p, PrintContent(segments))
    ensures var p' := p + |PrintSegment(segments[0])|;
      && Stands(source, p, PrintSegment(segments[0])) && Stands(source, p', PrintContent(segments[1..]))
      && p + |PrintContent(segments)| == p' + |PrintContent(segments[1..])|
  {
    StandsSplit(source, p, PrintSegment(segments[0]), PrintContent(segments[1..]));
  }

  lemma Extend(source: string, rs: Requests, t: Token, ts: seq<Token>)
    ensures AddContent(AddContent(rs, [t]), ts) == AddContent(rs, [t] + ts)
    ensures SegmentsOf(source, [t] + ts) == [SegmentOf(source, t)] + SegmentsOf(source, ts)
  {
    assert rs.current.content + [t] + ts == rs.current.content + ([t] + ts);
  }

  /** These segments are written down between `p` and `e`, and nothing more follows there. */
  ghost predicate ContentAt(source: string, p: nat, e: nat, segments: seq<Segment>) {
    forall fold {:trigger Look(fold)} :: Look(fold) && fold == Contents ==>
      && Stands(source, p, PrintContent(segments)) && e == p + |PrintContent(segments)|
      && WritableContent(segments) && ContentEnds(source, e)
  }

  lemma FirstSegmentSplit(source: string, p: nat, e: nat, segments: seq<Segment>) returns (p': nat)
    requires segments != [] && ContentAt(source, p, e, segments)
    ensures Stands(source, p, PrintSegment(segments[0])) && p' == p + |PrintSegment(segments[0])|
    ensures WritableSegment(segments[0]) && SegmentEnds(source, segments[0], p')
      && ContentAt(source, p', e, segments[1..])
  {
    assert Look(Contents);
    p' := p + |PrintSegment(segments[0])|;
    ContentSplit(source, p, segments);
    FirstSegmentEnds(source, p, e, segments);
  }

  lemma FirstSegmentTurn(
    source: string, parse: Parse, p: nat, e: nat, segments: seq<Segment>, rs: Requests, unnamed: nat)
    returns (t: Token, p': nat)
    requires Parses(source, parse) && segments != [] && ContentAt(source, p, e, segments)
    ensures SegmentOf(source, t) == Numbered(segments[0], unnamed) && ContentAt(source, p', e, segments[1..])
    ensures parse(Cursor(p, None, unnamed), rs) ==
      parse(Cursor(p', None, unnamed + NumberUsed(segments[0])), AddContent(rs, [t]))
  {
    p' := FirstSegmentSplit(source, p, e, segments);
    t := SegmentTurn(source, parse, p, segments[0], rs, unnamed);
  }

  lemma NoContent(source: string, p: nat, e: nat)
    requires ContentAt(source, p, e, [])
    ensures p == e
  {
    assert Look(Contents);
  }

  /** Parsing a request's content adds tokens that read as that content. */
  lemma {:induction false} ContentParses(
    source: string, parse: Parse, p: nat, e: nat, segments: seq<Segment>, rs: Requests, unnamed: nat)
    returns (ts: seq<Token>)
    requires Parses(source, parse) && ContentAt(source, p, e, segments)
    ensures SegmentsOf(source, ts) == ContentNumbered(segments, unnamed)
    ensures parse(Cursor(p, None, unnamed), rs) ==
      parse(Cursor(e, None, unnamed + NumbersUsed(segments)), AddContent(rs, ts))
    decreases |segments|
  {
    if segments == [] {
      ts := [];
      NoContent(source, p, e);
      assert AddContent(rs, ts) == rs;
      return;
    }
    var t, p' := FirstSegmentTurn(source, parse, p, e, segments, rs, unnamed);
    var more := ContentParses(source, parse, p', e, segments[1..], AddContent(rs, [t]),
      unnamed + NumberUsed(segments[0]));
    Extend(source, rs, t, more);
    ts := [t] + more;
  }

  // ----- lifecycle scripts -----

  /** Something to read at `e` that is not white space. */
  predicate SolidAt(source: string, e: nat) {
    e < |source| && !IsSpace(source[e])
  }

  function Put(b: Blueprint, name: string, t: Token): Blueprint {
    if name == "PRE" then b.(pre := t) else if name == "RETRY" then b.(retry := t)
    else if name == "ASSERT" then b.(asserts := t) else b.(post := t)
  }

  function Slotted(b: Blueprint, name: string): Token {
    if name == "PRE" then b.pre else if name == "RETRY" then b.retry else if name == "ASSERT" then b.asserts else b.post
  }

  lemma PutAbsorbs(source: string, rs: Requests, name: string, t: Token)
    requires t.kind == Script && t.name == name && IsLifecycle(name) && Slotted(rs.current, name) == NO_TOKEN
    ensures Absorb(source, rs, t) == Success(rs.(current := Put(rs.current, name, t)))
  {
  }

  lemma LifecycleScriptTurn(
    source: string, parse: Parse, p: nat, name: string, body: string, rs: Requests, unnamed: nat)
    returns (t: Token)
    requires Parses(source, parse) && IsLifecycle(name) && Slotted(rs.current, name) == NO_TOKEN
    requires Stands(source, p, PrintScript(name, body) + "\n") && Acceptable(body)
    requires SolidAt(source, p + |PrintScript(name, body)| + 1)
    ensures t.kind == Script && Payload(source, t) == body
    ensures parse(Cursor(p, None, unnamed), rs)
         == parse(Cursor(p + |PrintScript(name, body)| + 1, None, unnamed), rs.(current := Put(rs.current, name, t)))
  {
    var q := p + |PrintScript(name, body)|;
    StandsSplit(source, p, PrintScript(name, body), "\n");
    StandsByte(source, q, "\n", 0);
    SkipSpaceIs(source, q, q + 1);
    t := ScriptLexes(source, p, name, body, unnamed);
    PutAbsorbs(source, rs, name, t);
    ScriptTurn(source, parse, p, t, q, false, rs, unnamed);
  }

  lemma LifecycleTurn(
    source: string, parse: Parse, p: nat, name: string, body: Option<string>, rs: Requests, unnamed: nat)
    returns (t: Token)
    requires Parses(source, parse) && IsLifecycle(name) && Slotted(rs.current, name) == NO_TOKEN
    requires Stands(source, p, PrintLifecycle(name, body)) && WritableBody(body)
    requires SolidAt(source, p + |PrintLifecycle(name, body)|)
    ensures ScriptOf(source, t) == body
    ensures parse(Cursor(p, None, unnamed), rs)
         == parse(Cursor(p + |PrintLifecycle(name, body)|, None, unnamed), rs.(current := Put(rs.current, name, t)))
  {
    if body.Some? {
      t := LifecycleScriptTurn(source, parse, p, name, body.value, rs, unnamed);
    } else {
      t := NO_TOKEN;
      assert Put(rs.current, name, t) == rs.current;
    }
  }

  predicate Solid(x: string) {
    x != "" && !IsSpace(x[0])
  }

  lemma ContentIsSolid(r: Request)
    requires Writable(r)
    ensures Solid(PrintContent(r.content))
  {
    assert Look(Writings);
  }

  lemma SolidHere(source: string, p: nat, x: string)
    requires Stands(source, p, x) && Solid(x)
    ensures SolidAt(source, p)
  {
    StandsByte(source, p, x, 0);
  }

  /** The lifecycle scripts of a request are written down between `p` and `e`, and something solid follows. */
  ghost predicate ScriptsAt(source: string, p: nat, e: nat, r: Request) {
    forall fold {:trigger Look(fold)} :: Look(fold) && fold == Scripts ==>
      && WritableBody(r.pre) && WritableBody(r.retry) && WritableBody(r.asserts) && WritableBody(r.post)
      && Stands(source, p, PrintScripts(r)) && e == p + |PrintScripts(r)| && SolidAt(source, e)
  }

  lemma FourParts(
    source: string, p: nat, a: string, b: string, c: string, d: string) returns (p1: nat, p2: nat, p3: nat)
    requires Stands(source, p, a + (b + (c + d)))
    ensures p1 == p + |a| && p2 == p1 + |b| && p3 == p2 + |c|
    ensures Stands(source, p, a) && Stands(source, p1, b) && Stands(source, p2, c) && Stands(source, p3, d)
  {
    p1, p2, p3 := p + |a|, p + |a| + |b|, p + |a| + |b| + |c|;
    StandsSplit(source, p, a, b + (c + d));
    StandsSplit(source, p1, b, c + d);
    StandsSplit(source, p2, c, d);
  }

  lemma SolidBefore(source: string, p: nat, name: string, body: Option<string>)
    requires Stands(source, p, PrintLifecycle(name, body)) && SolidAt(source, p + |PrintLifecycle(name, body)|)
    ensures SolidAt(source, p)
  {
    if body.Some? {
      StandsByte(source, p, PrintLifecycle(name, body), 0);
    }
  }

  /** Where the four lifecycle scripts of a request stand, and that each is followed by something solid. */
  lemma ScriptsSplit(source: string, p: nat, e: nat, r: Request) returns (p1: nat, p2: nat, p3: nat)
    requires Stands(source, p, PrintScripts(r)) && e == p + |PrintScripts(r)| && SolidAt(source, e)
    ensures p1 == p + |PrintLifecycle("PRE", r.pre)| && p2 == p1 + |PrintLifecycle("RETRY", r.retry)|
    ensures p3 == p2 + |PrintLifecycle("ASSERT", r.asserts)| && e == p3 + |PrintLifecycle("POST", r.post)|
    ensures Stands(source, p, PrintLifecycle("PRE", r.pre)) && SolidAt(source, p1)
    ensures Stands(source, p1, PrintLifecycle("RETRY", r.retry)) && SolidAt(source, p2)
    ensures Stands(source, p2, PrintLifecycle("ASSERT", r.asserts)) && SolidAt(source, p3)
    ensures Stands(source, p3, PrintLifecycle("POST", r.post))
  {
    p1, p2, p3 := FourParts(source, p, PrintLifecycle("PRE", r.pre), PrintLifecycle("RETRY", r.retry),
                            PrintLifecycle("ASSERT", r.asserts), PrintLifecycle("POST", r.post));
    SolidBefore(source, p3, "POST", r.post);
    SolidBefore(source, p2, "ASSERT", r.asserts);
    SolidBefore(source, p1, "RETRY", r.retry);
  }

  lemma ScriptsParse(source: string, parse: Parse, p: nat, e: nat, r: Request, rs: Requests, unnamed: nat)
    returns (b: Blueprint)
    requires Parses(source, parse) && rs.current == EMPTY_BLUEPRINT.(name := rs.current.name)
    requires ScriptsAt(source, p, e, r)
    ensures b.name == rs.current.name && b.content == []
    ensures ScriptOf(source, b.pre) == r.pre && ScriptOf(source, b.retry) == r.retry
    ensures ScriptOf(source, b.asserts) == r.asserts && ScriptOf(source, b.post) == r.post
    ensures parse(Cursor(p, None, unnamed), rs) == parse(Cursor(e, None, unnamed), rs.(current := b))
  {
    assert Look(Scripts);
    var p1, p2, p3 := ScriptsSplit(source, p, e, r);
    var t := LifecycleTurn(source, parse, p, "PRE", r.pre, rs, unnamed);
    b := rs.current.(pre := t);
    t := LifecycleTurn(source, parse, p1, "RETRY", r.retry, rs.(current := b), unnamed);
    b := b.(retry := t);
    t := LifecycleTurn(source, parse, p2, "ASSERT", r.asserts, rs.(current := b), unnamed);
    b := b.(asserts := t);
    t := LifecycleTurn(source, parse, p3, "POST", r.post, rs.(current := b), unnamed);
    b := b.(post := t);
  }

  /** What was parsed reads as this request, its scripts numbered from `unnamed` on, and is not empty. */
  ghost predicate ReadAs(source: string, b: Blueprint, r: Request, unnamed: nat) {
    forall fold {:trigger Look(fold)} :: Look(fold) && fold == Readings ==>
      RequestOf(source, b) == RequestNumbered(r, unnamed) && |b.content| > 0
  }

  /** What follows a request's name is written down between `p` and `e`. */
  ghost predicate BodyAt(source: string, p: nat, e: nat, r: Request) {
    forall fold {:trigger Look(fold)} :: Look(fold) && fold == Bodies ==>
      Writable(r) && Stands(source, p, PrintBody(r)) && e == p + |PrintBody(r)|
  }

  lemma BodySplit(source: string, p: nat, e: nat, r: Request) returns (p': nat)
    requires BodyAt(source, p, e, r) && ContentEnds(source, e)
    ensures ScriptsAt(source, p, p', r) && ContentAt(source, p', e, r.content) && r.content != []
  {
    assert Look(Bodies);
    p' := p + |PrintScripts(r)|;
    StandsSplit(source, p, PrintScripts(r), PrintContent(r.content));
    ContentIsSolid(r);
    SolidHere(source, p', PrintContent(r.content));
    assert Look(Writings);
  }

  lemma {:induction false} RequestParses(
    source: string, parse: Parse, p: nat, e: nat, r: Request, rs: Requests, unnamed: nat)
    returns (b: Blueprint)
    requires Parses(source, parse) && rs.current == EMPTY_BLUEPRINT.(name := r.name)
    requires BodyAt(source, p, e, r) && ContentEnds(source, e)
    ensures ReadAs(source, b, r, unnamed)
    ensures parse(Cursor(p, None, unnamed), rs) ==
      parse(Cursor(e, None, unnamed + NumbersUsed(r.content)), Requests(rs.done, b))
  {
    var p' := BodySplit(source, p, e, r);
    b := ScriptsParse(source, parse, p, p', r, rs, unnamed);
    var ts := ContentParses(source, parse, p', e, r.content, rs.(current := b), unnamed);
    b := b.(content := ts);
    assert ts != [] by {
      assert ContentNumbered(r.content, unnamed) != [];
    }
    assert AddContent(rs.(current := b.(content := [])), ts) == Requests(rs.done, b);
  }

  // ----- the whole file -----

  lemma HeaderPayload(source: string, q: nat, name: string)
    requires var n := q + 4 + |name|;
      n + 1 < |source| && source[q + 3] == ' ' && source[q + 4..n] == name && source[n] == '\n'
    requires WritableName(name) && SolidAt(source, q + 5 + |name|)
    ensures Payload(source, DelimiterToken(source, q, q + 4 + |name|)) == name
  {
    var n := q + 4 + |name|;
    if name == "" {
      SkipSpaceIs(source, q + 3, n + 1);
      assert LastNonSpace(source, q + 3, n) == LastNonSpace(source, q + 3, q + 3) == 0;
    } else {
      assert source[q + 4] == source[q + 4..n][0] == name[0];
      assert source[n - 1] == source[q + 4..n][|name| - 1] == name[|name| - 1];
      SkipSpaceIs(source, q + 3, q + 4);
      assert LastNonSpace(source, q + 3, n) == n;
    }
  }

  /** The delimiter line of a request, from its first `#` on, is read as that request's name. */
  lemma HeaderLexes(source: string, q: nat, name: string)
    requires Stands(source, q, PrintHeader(name)) && WritableName(name)
    requires Stands(source, q + 4 + |name|, "\n") && SolidAt(source, q + 5 + |name|)
    ensures var n := q + 4 + |name|;
      && n < |source| && IndexFrom(source, q + 3, '\n') == n && SkipSpace(source, n) == n + 1
      && Payload(source, DelimiterToken(source, q, n)) == name
  {
    var n := q + 4 + |name|;
    StandsByte(source, n, "\n", 0);
    StandsSplit(source, q, "###", " " + name);
    StandsSplit(source, q + 3, " ", name);
    StandsByte(source, q + 3, " ", 0);
    StandsSlice(source, q + 4, name);
    assert forall k :: q + 4 <= k < n ==> source[k] == source[q + 4..n][k - q - 4];
    IndexFromIs(source, q + 3, '\n', n);
    SkipSpaceIs(source, n, n + 1);
    HeaderPayload(source, q, name);
  }

  lemma HeaderIsHashLine(source: string, q: nat, name: string)
    requires Stands(source, q, PrintHeader(name)) && (q == 0 || source[q - 1] == '\n')
    ensures HashLine(source, q)
  {
    StandsByte(source, q, PrintHeader(name), 0);
    StandsByte(source, q, PrintHeader(name), 1);
    StandsByte(source, q, PrintHeader(name), 2);
  }

  /** What the request before it needs to know of a request. */
  ghost predicate Begins(r: Request) {
    forall fold {:trigger Look(fold)} :: Look(fold) && fold == Starts ==> WritableName(r.name) && Solid(PrintBody(r))
  }

  lemma WritableBegins(r: Request)
    requires Writable(r)
    ensures Begins(r)
  {
    assert Look(Writings);
    ContentIsSolid(r);
  }

  /** A request is written down between `q` and `e`, at the start of a line. */
  ghost predicate RequestAt(source: string, q: nat, e: nat, r: Request) {
    forall fold {:trigger Look(fold)} :: Look(fold) && fold == Wholes ==>
      Writable(r) && Stands(source, q, PrintRequest(r)) && e == q + |PrintRequest(r)|
        && (q == 0 || source[q - 1] == '\n')
  }

  /** A request begins to be written down at `q`, at the start of a line. */
  ghost predicate BeginsAt(source: string, q: nat, r: Request) {
    forall fold {:trigger Look(fold)} :: Look(fold) && fold == Heads ==>
      Begins(r) && Stands(source, q, PrintRequest(r)) && (q == 0 || source[q - 1] == '\n')
  }

  lemma BodyFollowsHeader(source: string, q: nat, name: string, body: string) returns (n: nat)
    requires WritableName(name) && Solid(body)
    requires Stands(source, q, PrintHeader(name) + ("\n" + body)) && (q == 0 || source[q - 1] == '\n')
    ensures HashLine(source, q) && q + 3 <= n < |source|
    ensures n == IndexFrom(source, q + 3, '\n') && SkipSpace(source, n) == n + 1
    ensures Payload(source, DelimiterToken(source, q, n)) == name
    ensures Stands(source, n + 1, body) && n == q + 4 + |name|
  {
    n := q + 4 + |name|;
    StandsSplit(source, q, PrintHeader(name), "\n" + body);
    StandsSplit(source, n, "\n", body);
    StandsByte(source, n + 1, body, 0);
    HeaderIsHashLine(source, q, name);
    HeaderLexes(source, q, name);
  }

  /** How a printed request begins. */
  lemma {:induction false} RequestBegins(source: string, q: nat, r: Request) returns (n: nat)
    requires BeginsAt(source, q, r)
    ensures HashLine(source, q) && q + 3 <= n < |source|
    ensures n == IndexFrom(source, q + 3, '\n') && SkipSpace(source, n) == n + 1
    ensures Payload(source, DelimiterToken(source, q, n)) == r.name
    ensures n == q + 4 + |r.name| && Stands(source, n + 1, PrintBody(r))
  {
    assert Look(Heads) && Look(Starts);
    n := BodyFollowsHeader(source, q, r.name, PrintBody(r));
  }

  /** And where its body lies. */
  lemma BodyOfRequest(source: string, q: nat, e: nat, r: Request) returns (n: nat)
    requires RequestAt(source, q, e, r)
    ensures q + 3 <= n < |source| && n == IndexFrom(source, q + 3, '\n') && BodyAt(source, n + 1, e, r)
  {
    assert Look(Wholes);
    WritableBegins(r);
    n := RequestBegins(source, q, r);
  }

  /** Parsing from behind the name of the request whose delimiter stands at `q`. */
  function FromRequest(source: string, parse: Parse, q: nat, name: string, done: seq<Blueprint>, unnamed: nat)
    : Result<seq<Blueprint>, ParseError>
    requires q + 3 <= |source|
  {
    parse(Cursor(IndexFrom(source, q + 3, '\n') + 1, None, unnamed), Requests(done, EMPTY_BLUEPRINT.(name := name)))
  }

  /** A request and the delimiter behind it, or the end of the file. */
  lemma {:induction false} RequestTurn(
    source: string, parse: Parse, q: nat, e: nat, r: Request, done: seq<Blueprint>, unnamed: nat)
    returns (b: Blueprint)
    requires Parses(source, parse) && RequestAt(source, q, e, r) && ContentEnds(source, e)
    ensures ReadAs(source, b, r, unnamed) && q + 3 <= |source|
    ensures FromRequest(source, parse, q, r.name, done, unnamed)
         == parse(Cursor(e, None, unnamed + NumbersUsed(r.content)), Requests(done, b))
  {
    var n := BodyOfRequest(source, q, e, r);
    b := RequestParses(source, parse, n + 1, e, r, Requests(done, EMPTY_BLUEPRINT.(name := r.name)), unnamed);
  }

  lemma NotEmpty(source: string, b: Blueprint, r: Request, unnamed: nat)
    requires ReadAs(source, b, r, unnamed)
    ensures b.content != []
  {
    assert Look(Readings);
  }

  lemma DelimiterFollows(source: string, e: nat, r: Request)
    requires e < |source| && source[e] == '\n' && BeginsAt(source, e + 1, r)
    ensures ContentEnds(source, e)
  {
    var n := RequestBegins(source, e + 1, r);
  }

  lemma DelimiterStartsRequest(source: string, rs: Requests, t: Token, name: string)
    requires t.kind == Delimiter && Payload(source, t) == name && rs.current.content != []
    ensures Absorb(source, rs, t) == Success(Requests(rs.done + [rs.current], EMPTY_BLUEPRINT.(name := name)))
  {
  }

  lemma BehindDelimiter(source: string, parse: Parse, e: nat, n: nat, rs: Requests, name: string, unnamed: nat)
    requires ContentEnds(source, e) && e < |source| && n == IndexFrom(source, e + 4, '\n')
      && SkipSpace(source, n) == n + 1
    requires Absorb(source, rs, DelimiterToken(source, e + 1, n)) ==
      Success(Requests(rs.done + [rs.current], EMPTY_BLUEPRINT.(name := name)))
    ensures AfterContent(source, parse, e, rs, unnamed)
         == FromRequest(source, parse, e + 1, name, rs.done + [rs.current], unnamed)
  {
  }

  lemma NextRequest(source: string, parse: Parse, e: nat, r: Request, done: seq<Blueprint>, b: Blueprint, unnamed: nat)
    requires Parses(source, parse) && b.content != []
    requires e < |source| && source[e] == '\n' && BeginsAt(source, e + 1, r)
    ensures ContentEnds(source, e) && e + 4 <= |source|
    ensures parse(Cursor(e, None, unnamed), Requests(done, b)) ==
      FromRequest(source, parse, e + 1, r.name, done + [b], unnamed)
  {
    var n := RequestBegins(source, e + 1, r);
    var rs := Requests(done, b);
    DelimiterStartsRequest(source, rs, DelimiterToken(source, e + 1, n), r.name);
    BehindDelimiter(source, parse, e, n, rs, r.name, unnamed);
    AtContentEnd(source, parse, e, rs, unnamed);
  }

  /** The rest of the source, from `q` on, is these requests written down. */
  ghost predicate FileAt(source: string, q: nat, reqs: seq<Request>) {
    forall fold {:trigger Look(fold)} :: Look(fold) && fold == Files ==>
      && (forall i :: 0 <= i < |reqs| ==> Writable(reqs[i]))
      && Stands(source, q, PrintFile(reqs)) && q + |PrintFile(reqs)| == |source|
      && (q == 0 || source[q - 1] == '\n')
  }

  lemma WholeRequest(source: string, q: nat, e: nat, r: Request)
    requires Writable(r) && Stands(source, q, PrintRequest(r)) && e == q + |PrintRequest(r)|
      && (q == 0 || source[q - 1] == '\n')
    ensures RequestAt(source, q, e, r)
  {
  }

  /** The first request, and what comes after it. */
  lemma FileHead(source: string, q: nat, reqs: seq<Request>) returns (e: nat)
    requires reqs != [] && FileAt(source, q, reqs)
    ensures RequestAt(source, q, e, reqs[0])
    ensures |reqs| == 1 ==> e == |source|
    ensures |reqs| > 1 ==>
      var more := "\n" + PrintFile(reqs[1..]);
      Stands(source, e, more) && e + |more| == |source| && forall i :: 0 <= i < |reqs[1..]| ==> Writable(reqs[1..][i])
  {
    assert Look(Files);
    var head := PrintRequest(reqs[0]);
    e := q + |head|;
    if |reqs| > 1 {
      var more := "\n" + PrintFile(reqs[1..]);
      assert PrintFile(reqs) == head + more;
      StandsSplit(source, q, head, more);
    } else {
      StandsSplit(source, q, head, "");
    }
    WholeRequest(source, q, e, reqs[0]);
  }

  lemma FileRest(source: string, e: nat, reqs: seq<Request>)
    requires forall i :: 0 <= i < |reqs| ==> Writable(reqs[i])
    requires Stands(source, e, "\n" + PrintFile(reqs)) && e + |"\n" + PrintFile(reqs)| == |source|
    ensures source[e] == '\n' && FileAt(source, e + 1, reqs)
  {
    StandsSplit(source, e, "\n", PrintFile(reqs));
    StandsByte(source, e, "\n", 0);
  }

  lemma FileSplit(source: string, q: nat, reqs: seq<Request>) returns (e: nat)
    requires reqs != [] && FileAt(source, q, reqs)
    ensures RequestAt(source, q, e, reqs[0])
    ensures |reqs| == 1 ==> e == |source|
    ensures |reqs| > 1 ==> e < |source| && source[e] == '\n' && FileAt(source, e + 1, reqs[1..])
  {
    e := FileHead(source, q, reqs);
    if |reqs| > 1 {
      FileRest(source, e, reqs[1..]);
    }
  }

  lemma RequestAtBegins(source: string, q: nat, e: nat, r: Request)
    requires RequestAt(source, q, e, r)
    ensures BeginsAt(source, q, r)
  {
    assert Look(Wholes);
    WritableBegins(r);
  }

  lemma NextInFile(source: string, q: nat, reqs: seq<Request>) returns (e: nat)
    requires |reqs| > 1 && FileAt(source, q, reqs)
    ensures RequestAt(source, q, e, reqs[0]) && e < |source| && source[e] == '\n'
    ensures BeginsAt(source, e + 1, reqs[1]) && FileAt(source, e + 1, reqs[1..])
  {
    e := FileSplit(source, q, reqs);
    var e' := FileSplit(source, e + 1, reqs[1..]);
    RequestAtBegins(source, e + 1, e', reqs[1]);
  }

  lemma {:induction false} LastOfFileParses(
    source: string, parse: Parse, q: nat, reqs: seq<Request>, done: seq<Blueprint>, unnamed: nat)
    returns (b: Blueprint)
    requires Parses(source, parse) && |reqs| == 1 && FileAt(source, q, reqs)
    ensures ReadAs(source, b, reqs[0], unnamed) && q + 3 <= |source|
    ensures FromRequest(source, parse, q, reqs[0].name, done, unnamed) == Success(done + [b])
  {
    var e := FileSplit(source, q, reqs);
    b := RequestTurn(source, parse, q, e, reqs[0], done, unnamed);
    NotEmpty(source, b, reqs[0], unnamed);
    AtContentEnd(source, parse, e, Requests(done, b), unnamed + NumbersUsed(reqs[0].content));
  }

  /** A request leads to the next one. */
  lemma OneRequestParses(
    source: string, parse: Parse, q: nat, e: nat, r: Request, next: Request, done: seq<Blueprint>, unnamed: nat)
    returns (b: Blueprint)
    requires Parses(source, parse) && RequestAt(source, q, e, r)
    requires e < |source| && source[e] == '\n' && BeginsAt(source, e + 1, next)
    ensures ReadAs(source, b, r, unnamed) && q + 3 <= |source| && e + 4 <= |source|
    ensures FromRequest(source, parse, q, r.name, done, unnamed)
         == FromRequest(source, parse, e + 1, next.name, done + [b], unnamed + NumbersUsed(r.content))
  {
    DelimiterFollows(source, e, next);
    b := RequestTurn(source, parse, q, e, r, done, unnamed);
    NotEmpty(source, b, r, unnamed);
    NextRequest(source, parse, e, next, done, b, unnamed + NumbersUsed(r.content));
  }

  lemma {:induction false} FirstOfFileParses(
    source: string, parse: Parse, q: nat, reqs: seq<Request>, done: seq<Blueprint>, unnamed: nat)
    returns (b: Blueprint, q': nat)
    requires Parses(source, parse) && |reqs| > 1 && FileAt(source, q, reqs)
    ensures ReadAs(source, b, reqs[0], unnamed) && FileAt(source, q', reqs[1..])
    ensures q + 3 <= |source| && q' + 3 <= |source|
    ensures FromRequest(source, parse, q, reqs[0].name, done, unnamed)
         == FromRequest(source, parse, q', reqs[1].name, done + [b], unnamed + NumbersUsed(reqs[0].content))
  {
    var r, next := reqs[0], reqs[1];
    var e := NextInFile(source, q, reqs);
    b := OneRequestParses(source, parse, q, e, r, next, done, unnamed);
    q' := e + 1;
  }

  /** These are the requests, with their scripts numbered from `unnamed` on. */
  predicate Read(source: string, bs: seq<Blueprint>, reqs: seq<Request>, unnamed: nat) {
    |bs| == |reqs| && forall i :: 0 <= i < |reqs| ==> RequestOf(source, bs[i]) == FileNumbered(reqs, unnamed)[i]
  }

  ghost predicate AllRead(source: string, bs: seq<Blueprint>, reqs: seq<Request>, unnamed: nat)
    decreases |reqs|
  {
    |bs| == |reqs| &&
    (reqs != [] ==>
      && ReadAs(source, bs[0], reqs[0], unnamed)
      && AllRead(source, bs[1..], reqs[1..], unnamed + NumbersUsed(reqs[0].content)))
  }

  lemma {:induction false} AllReadIsRead(source: string, bs: seq<Blueprint>, reqs: seq<Request>, unnamed: nat)
    requires AllRead(source, bs, reqs, unnamed)
    ensures Read(source, bs, reqs, unnamed)
    decreases |reqs|
  {
    if reqs != [] {
      assert Look(Readings);
      AllReadIsRead(source, bs[1..], reqs[1..], unnamed + NumbersUsed(reqs[0].content));
    }
  }

  lemma {:induction false} FileParses(
    source: string, parse: Parse, q: nat, reqs: seq<Request>, done: seq<Blueprint>, unnamed: nat)
    returns (bs: seq<Blueprint>)
    requires Parses(source, parse) && reqs != [] && FileAt(source, q, reqs)
    ensures AllRead(source, bs, reqs, unnamed)
    ensures q + 3 <= |source| && FromRequest(source, parse, q, reqs[0].name, done, unnamed) == Success(done + bs)
    decreases |reqs|
  {
    if |reqs| == 1 {
      var b := LastOfFileParses(source, parse, q, reqs, done, unnamed);
      bs := [b];
    } else {
      var b, q' := FirstOfFileParses(source, parse, q, reqs, done, unnamed);
      var more := FileParses(source, parse, q', reqs[1..], done + [b], unnamed + NumbersUsed(reqs[0].content));
      bs := [b] + more;
      assert bs[1..] == more;
      assert done + [b] + more == done + bs;
    }
  }

  lemma FirstTurn(source: string, parse: Parse, n: nat)
    requires Parses(source, parse) && HashLine(source, 0)
    requires 3 <= n < |source| && n == IndexFrom(source, 3, '\n') && SkipSpace(source, n) == n + 1
    ensures ParseFile(source) ==
      parse(Cursor(n + 1, None, 0), Requests([],
        EMPTY_BLUEPRINT.(name := Payload(source, DelimiterToken(source, 0, n)))))
  {
    var rs := Requests([], EMPTY_BLUEPRINT);
    assert SkipSpace(source, 0) == 0 && StopPos(source, 0, 0) == 0;
    var t := DelimiterToken(source, 0, n);
    assert NextToken(source, Start(source)) == Success((t, Cursor(n + 1, None, 0)));
    Turn(source, parse, Start(source), rs, t, Cursor(n + 1, None, 0));
    assert ParseFrom(source, Start(source), rs) == parse(Start(source), rs);
  }

  lemma FirstDelimiterTurn(source: string, parse: Parse, r: Request)
    requires Parses(source, parse) && BeginsAt(source, 0, r)
    ensures |source| >= 3 && ParseFile(source) == FromRequest(source, parse, 0, r.name, [], 0)
  {
    var n := RequestBegins(source, 0, r);
    FirstTurn(source, parse, n);
  }

  lemma {:induction false} NamesStay(segments: seq<Segment>, unnamed: nat)
    requires NumbersUsed(segments) == 0
    ensures ContentNumbered(segments, unnamed) == segments
  {
    if segments != [] {
      NamesStay(segments[1..], unnamed);
    }
  }

  lemma {:induction false} FileStays(reqs: seq<Request>, unnamed: nat)
    requires forall i :: 0 <= i < |reqs| ==> NumbersUsed(reqs[i].content) == 0
    ensures FileNumbered(reqs, unnamed) == reqs
  {
    if reqs != [] {
      NamesStay(reqs[0].content, unnamed);
      FileStays(reqs[1..], unnamed);
    }
  }

  lemma WholeFile(source: string, reqs: seq<Request>)
    requires source == PrintFile(reqs) && forall i :: 0 <= i < |reqs| ==> Writable(reqs[i])
    ensures FileAt(source, 0, reqs)
  {
    StandsSlice(source, 0, source);
    assert source[0..|source|] == source;
  }

  lemma FileParsesFromStart(source: string, reqs: seq<Request>) returns (bs: seq<Blueprint>)
    requires reqs != [] && source == PrintFile(reqs) && forall i :: 0 <= i < |reqs| ==> Writable(reqs[i])
    ensures ParseFile(source) == Success(bs) && Read(source, bs, reqs, 0)
  {
    var parse := ParserOf(source);
    WholeFile(source, reqs);
    var e := FileSplit(source, 0, reqs);
    RequestAtBegins(source, 0, e, reqs[0]);
    FirstDelimiterTurn(source, parse, reqs[0]);
    bs := FileParses(source, parse, 0, reqs, [], 0);
    assert [] + bs == bs;
    AllReadIsRead(source, bs, reqs, 0);
  }

  /**
   Parsing what was written gives exactly the requests that were written, scripts without a name being
   numbered throughout the file.
   */
  lemma ParseOfPrint(reqs: seq<Request>)
    requires reqs != [] && forall i :: 0 <= i < |reqs| ==> Writable(reqs[i])
    ensures var source := PrintFile(reqs);
      && ParseFile(source).Success?
      && Read(source, ParseFile(source).value, reqs, 0)
    ensures var bs := ParseFile(PrintFile(reqs)).value;
      (forall i :: 0 <= i < |reqs| ==> NumbersUsed(reqs[i].content) == 0) ==>
        |bs| == |reqs| && forall i :: 0 <= i < |reqs| ==> RequestOf(PrintFile(reqs), bs[i]) == reqs[i]
  {
    var bs := FileParsesFromStart(PrintFile(reqs), reqs);
    if forall i :: 0 <= i < |reqs| ==> NumbersUsed(reqs[i].content) == 0 {
      FileStays(reqs, 0);
    }
  }
}
