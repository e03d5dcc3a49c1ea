/**
 The text of a request, as it is after scripts have been filled in (internal/runner/parser.go).

 Parsing a URL is the library's business: a URL text is malformed, lacks a scheme, or has one and a host that may
 be empty.  The context is not cancelled while parsing.
 */
module HttpText {
  import opened Prelude
  import opened ByteScanner
  import opened GoStrings

  datatype Url = Malformed | Relative | Absolute(host: string)

  datatype HttpError = UnexpectedEOF | EmptyRequestLine | BadUrl | ExpectedNextLine | MalformedHeader

  /** Header values by canonical name, in the order they came in; the content length is the body's. */
  datatype Request = Request(method_: string, url: string, host: string, header: map<string, seq<string>>, body: string)

  const USER_AGENT := "The Spanish Inquisition/1.0"

  predicate Blank(b: char) {
    b == ' ' || b == '\t'
  }

  // ----- what is where -----

  function SkipBlank(s: string, p: nat): (q: nat)
    requires p <= |s|
    ensures p <= q <= |s|
    decreases |s| - p
  {
    if p < |s| && Blank(s[p]) then SkipBlank(s, p + 1) else p
  }

  function WordEnd(s: string, p: nat): (q: nat)
    requires p <= |s|
    ensures p <= q <= |s|
    decreases |s| - p
  {
    if p < |s| && !IsSpace(s[p]) then WordEnd(s, p + 1) else p
  }

  /** Without the blanks and carriage returns at its end. */
  function TrimEnd(s: string): string {
    if s != "" && (Blank(s[|s| - 1]) || s[|s| - 1] == '\r') then TrimEnd(s[..|s| - 1]) else s
  }

  datatype Line = Next(q: nat) | Eof | NoLine

  function LineAfter(s: string, p: nat): (l: Line)
    requires p <= |s|
    ensures l.Next? ==> p < l.q <= |s|
  {
    var a := SkipBlank(s, p);
    if a == |s| then Eof
    else if s[a] == '\r' then
      if a + 1 == |s| then Eof else if s[a + 1] == '\n' then Next(a + 2) else NoLine
    else if s[a] == '\n' then Next(a + 1) else NoLine
  }

  datatype Words = Words(words: seq<string>, next: nat) | WordsHitEnd

  /** Up to three words in all, `taken` among them; a text that ends with one, or before one, is cut short. */
  function TakeWords(s: string, p: nat, taken: seq<string>): (ws: Words)
    requires p <= |s|
    ensures ws.Words? ==> p <= ws.next <= |s|
    decreases 3 - |taken|
  {
    if |taken| >= 3 then Words(taken, p)
    else
      var a := SkipBlank(s, p);
      var e := WordEnd(s, a);
      if e == |s| then WordsHitEnd
      else if a == e then Words(taken, a)
      else TakeWords(s, e, taken + [s[a..e]])
  }

  // ----- names of headers -----

  function Lower(c: char): char {
    if 'A' <= c <= 'Z' then c + ' ' else c
  }

  function Upper(c: char): char {
    if 'a' <= c <= 'z' then c - ' ' else c
  }

  /** bytes.EqualFold against a lower-case ASCII name: the long s of Unicode also counts as an s. */
  predicate EqualFold(name: string, lower: string)
    decreases |name|
  {
    if name == "" || lower == "" then name == lower
    else if Lower(name[0]) == lower[0] then EqualFold(name[1..], lower[1..])
    else
      && |name| >= 2 && name[0] == '\U{C5}' && name[1] == '\U{BF}' && lower[0] == 's'
      && EqualFold(name[2..], lower[1..])
  }

  /** The bytes a header name is made of by section 5.6.2 of RFC 9110. */
  predicate TokenByte(c: char) {
    || 'a' <= c <= 'z' || 'A' <= c <= 'Z' || '0' <= c <= '9'
    || c in {'!', '#', '$', '%', '&', '\'', '*', '+', '-', '.', '^', '_', '`', '|', '~'}
  }

  function Capitalize(name: string, upper: bool): string {
    if name == "" then ""
    else [if upper then Upper(name[0]) else Lower(name[0])] + Capitalize(name[1..], name[0] == '-')
  }

  /** http.CanonicalHeaderKey. */
  function Canonical(name: string): string {
    if forall i :: 0 <= i < |name| ==> TokenByte(name[i]) then Capitalize(name, true) else name
  }

  datatype Headers = Headers(host: string, header: map<string, seq<string>>)

  /** One more header: Host names the host, User-Agent replaces, any other is added. */
  function Put(hs: Headers, name: string, value: string): Headers {
    if EqualFold(name, "host") then hs.(host := value)
    else
      var key := Canonical(name);
      if EqualFold(name, "user-agent") then hs.(header := hs.header[key := [value]])
      else hs.(header := hs.header[key := (if key in hs.header then hs.header[key] else []) + [value]])
  }

  datatype Field = Field(name: string, value: string)

  function PutAll(hs: Headers, fields: seq<Field>): Headers
    decreases |fields|
  {
    if fields == [] then hs else PutAll(Put(hs, fields[0].name, fields[0].value), fields[1..])
  }

  // ----- the whole text -----

  datatype FieldPart = FieldPart(fields: seq<Field>, next: nat)

  /** The value of a header whose name ends at `e`; one that the text ends with keeps its blanks. */
  function ValueAt(s: string, e: nat): string
    requires e <= |s|
  {
    var v := SkipBlank(s, e);
    var n := IndexFrom(s, v, '\n');
    if n == |s| then s[v..] else TrimEnd(s[v..n])
  }

  /** Where the line after that header begins. */
  function LineEnd(s: string, e: nat): (q: nat)
    requires e <= |s|
    ensures e <= q <= |s|
  {
    var n := IndexFrom(s, SkipBlank(s, e), '\n');
    if n == |s| then n else n + 1
  }

  datatype HeaderLine = NoHeader(next: nat) | Fault(error: HttpError) | More(field: Field, next: nat)

  function HeaderAt(s: string, p: nat): (line: HeaderLine)
    requires p <= |s|
    ensures line.NoHeader? ==> p <= line.next <= |s|
    ensures line.More? ==> p < line.next <= |s|
  {
    var a := SkipBlank(s, p);
    var e := WordEnd(s, a);
    if a == e then NoHeader(a)
    else if e == |s| then Fault(UnexpectedEOF)
    else if s[e - 1] != ':' then Fault(MalformedHeader)
    else More(Field(s[a..e - 1], ValueAt(s, e)), LineEnd(s, e))
  }

  function FieldsAt(s: string, p: nat): (r: Result<FieldPart, HttpError>)
    requires p <= |s|
    ensures r.Success? ==> p <= r.value.next <= |s|
    decreases |s| - p
  {
    match HeaderAt(s, p)
    case NoHeader(next) => Success(FieldPart([], next))
    case Fault(e) => Failure(e)
    case More(field, next) =>
      match FieldsAt(s, next)
      case Success(FieldPart(fields, end)) => Success(FieldPart([field] + fields, end))
      case Failure(e) => Failure(e)
  }

  function UrlHost(urls: string -> Url, text: string): Result<string, HttpError> {
    match urls(text)
    case Absolute(host) => if host == "" then Failure(BadUrl) else Success(host)
    case _ => Failure(BadUrl)
  }

  function MethodOf(words: seq<string>): string
    requires words != []
  {
    if |words| > 1 then words[0] else "GET"
  }

  function UrlOf(words: seq<string>): string
    requires words != []
  {
    if |words| > 1 then words[1] else words[0]
  }

  /** The request with these words on its first line, these headers and this body. */
  function Meant(words: seq<string>, fields: seq<Field>, body: string, host: string): Request
    requires words != []
  {
    var hs := PutAll(Headers(host, map["User-Agent" := [USER_AGENT]]), fields);
    Request(MethodOf(words), UrlOf(words), hs.host, hs.header, body)
  }

  function ParseText(s: string, urls: string -> Url): Result<Request, HttpError> {
    match TakeWords(s, 0, [])
    case WordsHitEnd => Failure(UnexpectedEOF)
    case Words(words, p) =>
      if words == [] then Failure(EmptyRequestLine)
      else
        match UrlHost(urls, UrlOf(words))
        case Failure(e) => Failure(e)
        case Success(host) =>
          match LineAfter(s, p)
          case Eof => Success(Request(MethodOf(words), UrlOf(words), host, map[], ""))
          case NoLine => Failure(ExpectedNextLine)
          case Next(q) =>
            match FieldsAt(s, q)
            case Failure(e) => Failure(e)
            case Success(FieldPart(fields, h)) =>
              match LineAfter(s, h)
              case Eof => Success(Meant(words, fields, "", host))
              case NoLine => Failure(ExpectedNextLine)
              case Next(b) => Success(Meant(words, fields, s[b..], host))
  }

  // ----- the parser -----

  method PutHeader(hs: Headers, name: string, value: string) returns (res: Headers)
    ensures res == Put(hs, name, value)
  {
    if EqualFold(name, "host") {
      return hs.(host := value);
    }
    var key := Canonical(name);
    if EqualFold(name, "user-agent") {
      return hs.(header := hs.header[key := [value]]);
    }
    return hs.(header := hs.header[key := (if key in hs.header then hs.header[key] else []) + [value]]);
  }

  function RequestLine(s: string, urls: string -> Url): Result<Request, HttpError> {
    match TakeWords(s, 0, [])
    case WordsHitEnd => Failure(UnexpectedEOF)
    case Words(words, _) =>
      if words == [] then Failure(EmptyRequestLine)
      else
        match UrlHost(urls, UrlOf(words))
        case Failure(e) => Failure(e)
        case Success(host) => Success(Request(MethodOf(words), UrlOf(words), host, map[], ""))
  }

  lemma TrimOneMore(s: string, start: nat, at: nat)
    requires start <= at < |s|
    ensures TrimEnd(s[start..at + 1]) ==
      if Blank(s[at]) || s[at] == '\r' then TrimEnd(s[start..at]) else s[start..at + 1]
  {
    assert s[start..at + 1][..at - start] == s[start..at];
  }

  class RequestParser {
    const r: Scanner

    constructor (source: string)
      ensures fresh(r) && r.Valid() && r.source == source && r.current == 0
    {
      r := new Scanner(source);
    }

    method SkipWhitespace()
      requires r.Valid()
      modifies r
      ensures r.Valid() && r.current == SkipBlank(r.source, old(r.current))
    {
      while true
        invariant r.Valid() && SkipBlank(r.source, old(r.current)) == SkipBlank(r.source, r.current)
        decreases |r.source| - r.current
      {
        var b := r.Read();
        if b.None? || !Blank(b.value) {
          return;
        }
        r.Advance();
      }
    }

    method ScanWord() returns (word: string, eof: bool)
      requires r.Valid()
      modifies r
      ensures r.Valid()
      ensures var a := SkipBlank(r.source, old(r.current));
        && r.current == WordEnd(r.source, a)
        && word == r.source[a..r.current] && (eof <==> r.current == |r.source|)
    {
      SkipWhitespace();
      var start := r.current;
      while true
        invariant r.Valid() && start <= r.current && WordEnd(r.source, start) == WordEnd(r.source, r.current)
        decreases |r.source| - r.current
      {
        var b := r.Read();
        if b.None? || IsSpace(b.value) {
          return r.Slice(start, r.current), b.None?;
        }
        r.Advance();
      }
    }

    method ScanLine() returns (value: string)
      requires r.Valid()
      modifies r
      ensures r.Valid() && value == ValueAt(r.source, old(r.current)) && r.current == LineEnd(r.source, old(r.current))
    {
      SkipWhitespace();
      var start, lastNonSpace := r.current, r.current;
      while true
        invariant r.Valid() && start <= lastNonSpace <= r.current
        invariant IndexFrom(r.source, start, '\n') == IndexFrom(r.source, r.current, '\n')
        invariant TrimEnd(r.source[start..r.current]) == r.source[start..lastNonSpace]
        decreases |r.source| - r.current
      {
        var b := r.Read();
        ghost var at := r.current;
        r.Advance();
        if b.None? {
          return r.Slice(start, r.current);
        }
        if b.value == '\n' {
          return r.Slice(start, lastNonSpace);
        }
        TrimOneMore(r.source, start, at);
        if Blank(b.value) || b.value == '\r' {
          continue;
        }
        lastNonSpace := r.current;
      }
    }

    method NextLine() returns (line: Line)
      requires r.Valid()
      modifies r
      ensures r.Valid() && line == LineAfter(r.source, old(r.current))
      ensures line.Next? ==> r.current == line.q
    {
      SkipWhitespace();
      var linebreak := r.Read();
      if linebreak.None? {
        return Eof;
      }
      if linebreak.value == '\r' {
        r.Advance();
        linebreak := r.Read();
        if linebreak.None? {
          return Eof;
        }
      }
      if linebreak.value != '\n' {
        return NoLine;
      }
      r.Advance();
      line := Next(r.current);
    }

    method ScanRequestLine(urls: string -> Url) returns (res: Result<Request, HttpError>)
      requires r.Valid() && r.current == 0
      modifies r
      ensures r.Valid() && res == RequestLine(r.source, urls)
      ensures res.Success? ==> var words := TakeWords(r.source, 0, []);
        && words.Words? && 1 <= |words.words| <= 3 && r.current == words.next
        && res.value.method_ == (if |words.words| == 1 then "GET" else words.words[0])
        && res.value.url == words.words[if |words.words| == 1 then 0 else 1]
    {
      var contents: seq<string> := [];
      var i, more := 0, true;
      ghost var all := TakeWords(r.source, 0, []);
      while i < 3 && more
        invariant r.Valid() && 0 <= i <= 3
        invariant |contents| == i && (more ==> all == TakeWords(r.source, r.current, contents))
        invariant !more ==> all == Words(contents, r.current)
        decreases more, 3 - i
      {
        var word, eof := ScanWord();
        if eof {
          return Failure(UnexpectedEOF);
        }
        if |word| == 0 {
          more := false;
        } else {
          contents := contents + [word];
          i := i + 1;
        }
      }
      if |contents| == 0 {
        return Failure(EmptyRequestLine);
      }
      var contentsIdx, method_ := 0, "GET";
      if |contents| > 1 {
        method_ := contents[contentsIdx];
        contentsIdx := 1;
      }
      var host := UrlHost(urls, contents[contentsIdx]);
      match host
      case Failure(e) => res := Failure(e);
      case Success(name) => res := Success(Request(method_, contents[contentsIdx], name, map[], ""));
    }

    /** One line of `ScanHeaders`. */
    method ScanHeader() returns (line: HeaderLine)
      requires r.Valid()
      modifies r
      ensures r.Valid() && line == HeaderAt(r.source, old(r.current))
      ensures !line.Fault? ==> r.current == line.next
    {
      ghost var p := r.current;
      var word, eof := ScanWord();
      if |word| == 0 {
        return NoHeader(r.current);
      }
      if eof {
        return Fault(UnexpectedEOF);
      }
      if word[|word| - 1] != ':' {
        return Fault(MalformedHeader);
      }
      var name := word[..|word| - 1];
      assert name == r.source[SkipBlank(r.source, p)..r.current - 1];
      var value := ScanLine();
      line := More(Field(name, value), r.current);
    }

    method ScanHeaders(dest: Headers) returns (res: Result<Headers, HttpError>)
      requires r.Valid()
      modifies r
      ensures r.Valid()
      ensures match FieldsAt(r.source, old(r.current))
        case Success(part) => res == Success(PutAll(dest, part.fields)) && r.current == part.next
        case Failure(e) => res == Failure(e)
    {
      var hs := dest;
      ghost var all := FieldsAt(r.source, r.current);
      while true
        invariant r.Valid()
        invariant match FieldsAt(r.source, r.current)
          case Success(rest) => all.Success? && all.value.next == rest.next
            && PutAll(dest, all.value.fields) == PutAll(hs, rest.fields)
          case Failure(e) => all == Failure(e)
        decreases |r.source| - r.current
      {
        ghost var rest := FieldsAt(r.source, r.current);
        var line := ScanHeader();
        if line.NoHeader? {
          return Success(hs);
        }
        if line.Fault? {
          return Failure(line.error);
        }
        assert rest.Success? ==>
          && rest.value.fields[0] == line.field
          && rest.value.fields[1..] == FieldsAt(r.source, r.current).value.fields;
        hs := PutHeader(hs, line.field.name, line.field.value);
      }
    }

    method Parse(urls: string -> Url) returns (res: Result<Request, HttpError>)
      requires r.Valid() && r.current == 0
      modifies r
      ensures res == ParseText(r.source, urls)
    {
      var line := ScanRequestLine(urls);
      if line.Failure? {
        return Failure(line.error);
      }
      var req := line.value;
      var next := NextLine();
      match next {
        case Eof => return Success(req);
        case NoLine => return Failure(ExpectedNextLine);
        case Next(_) =>
      }
      var hs := ScanHeaders(Headers(req.host, map["User-Agent" := [USER_AGENT]]));
      if hs.Failure? {
        return Failure(hs.error);
      }
      req := req.(host := hs.value.host, header := hs.value.header);
      next := NextLine();
      match next {
        case Eof => return Success(req);
        case NoLine => return Failure(ExpectedNextLine);
        case Next(_) => return Success(req.(body := r.Slice(r.current, -1)));
      }
    }
  }
}
