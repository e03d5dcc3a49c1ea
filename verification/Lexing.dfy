/**
 What the tokens of a `.sinq` file are (internal/scenario/scenario-token.go, scenario-parser.go).

 The repository computes them with a mutable cursor, an escape flag and a one-token lookback.  Here
 they are described by position: which byte ends a text, which line is a delimiter, which byte is
 escaped.  The methods of ScenarioParser.dfy are proved to agree.
 */
module Lexing {
  import opened Prelude
  import opened ByteScanner
  import opened GoStrings
  import opened LuaAutomaton

  datatype TokenType = IncompleteToken | Text | Script | Delimiter | EOF

  datatype Token = Token(
    kind: TokenType,
    name: string,
    line: int,
    offset: int,
    start: int,
    end: int,
    payloadStart: int,
    payloadEnd: int,
    hasEscapes: bool)

  /** The zero value of the source's struct. */
  const NO_TOKEN := Token(IncompleteToken, "", 0, 0, 0, 0, 0, 0, false)

  /** Byte `q` of a text that begins at `start` is escaped: its predecessor is an unescaped backslash. */
  predicate Escaped(source: string, start: nat, q: nat)
    requires start <= q <= |source|
    decreases q
  {
    q > start && source[q - 1] == '\\' && !Escaped(source, start, q - 1)
  }

  /** Three `#` at the start of a line; the file's start and a NUL byte count as line starts. */
  predicate HashLine(source: string, q: nat) {
    && q + 3 <= |source|
    && source[q] == source[q + 1] == source[q + 2] == '#'
    && (Prev(source, q) == '\n' || Prev(source, q) == NUL)
  }

  /** A text that began at `start` cannot go on as plain text at `q`. */
  predicate Stops(source: string, start: nat, q: nat)
    requires start <= q <= |source|
  {
    q == |source| || (!Escaped(source, start, q) && (source[q] == '$' || HashLine(source, q)))
  }

  /** The first such position at or after `p`. */
  function StopPos(source: string, start: nat, p: nat): (q: nat)
    requires start <= p <= |source|
    ensures p <= q <= |source| && Stops(source, start, q)
    decreases |source| - p
  {
    if Stops(source, start, p) then p else StopPos(source, start, p + 1)
  }

  lemma {:induction false} StopPosIs(source: string, start: nat, p: nat, q: nat)
    requires start <= p <= q <= |source| && Stops(source, start, q)
    requires forall k :: p <= k < q ==> !Stops(source, start, k)
    ensures StopPos(source, start, p) == q
    decreases q - p
  {
    if p < q {
      StopPosIs(source, start, p + 1, q);
    }
  }

  lemma {:induction false} StopPosIsFirst(source: string, start: nat, p: nat)
    requires start <= p <= |source|
    ensures forall k :: p <= k < StopPos(source, start, p) ==> !Stops(source, start, k)
    decreases |source| - p
  {
    if !Stops(source, start, p) {
      StopPosIsFirst(source, start, p + 1);
    }
  }

  predicate HasBackslash(source: string, p: nat, q: nat)
    requires p <= q <= |source|
  {
    exists k :: p <= k < q && source[k] == '\\'
  }

  function TextToken(source: string, start: nat, end: nat, hasEscapes: bool): Token
    requires start <= |source|
  {
    Token(Text, "", LineAt(source, start), OffsetAt(source, start), start, end, start, end, hasEscapes)
  }

  /** One past the last byte in [p, q) that is not white space; 0 when there is none. */
  function LastNonSpace(source: string, p: nat, q: nat): (e: nat)
    requires p <= q <= |source|
    ensures e == 0 || p < e <= q
    decreases q
  {
    if p == q then 0 else if IsSpace(source[q - 1]) then LastNonSpace(source, p, q - 1) else q
  }

  lemma {:induction false} LastNonSpaceIsLast(source: string, p: nat, q: nat)
    requires p <= q <= |source|
    ensures var e := LastNonSpace(source, p, q);
      && (e > 0 ==> !IsSpace(source[e - 1]))
      && forall k :: p <= k < q && e <= k ==> IsSpace(source[k])
    decreases q
  {
    if p < q && IsSpace(source[q - 1]) {
      LastNonSpaceIsLast(source, p, q - 1);
    }
  }

  /** The delimiter whose `###` begins at `q` and whose line ends at `n`. */
  function DelimiterToken(source: string, q: nat, n: nat): Token
    requires q + 3 <= n <= |source|
  {
    var first := SkipSpace(source, q + 3);
    Token(Delimiter, "", LineAt(source, q), OffsetAt(source, q), q - 1, n,
          if first < n then first else 0, LastNonSpace(source, q + 3, n), HasBackslash(source, q + 3, n))
  }

  /**
   What one call of the lexer yields: a token, where the cursor is then, the delimiter held back, and
   whether a number was used up for a script without a name.
   */
  datatype Lexeme = Lexeme(token: Token, next: nat, pending: Option<Token>, numbered: bool)

  function LexText(source: string, start: nat): Result<Lexeme, LexError>
    requires start < |source|
  {
    var q := StopPos(source, start, start);
    if q == |source| then
      if Escaped(source, start, q) then Failure(EofAfterEscape)
      else Success(Lexeme(TextToken(source, start, q, HasBackslash(source, start, q)), q, None, false))
    else if source[q] == '$' then
      Success(Lexeme(TextToken(source, start, q, HasBackslash(source, start, q)), q, None, false))
    else
      var n := IndexFrom(source, q + 3, '\n');
      if n == |source| then
        // A `###` line that the file ends in is text up to the end, and its backslashes go unnoticed.
        if source[n - 1] == '\\' then Failure(EofAfterEscape)
        else Success(Lexeme(TextToken(source, start, n, HasBackslash(source, start, q)), n, None, false))
      else
        var delimiter := DelimiterToken(source, q, n);
        if start >= q - 1 then Success(Lexeme(delimiter, n, None, false))
        else Success(Lexeme(TextToken(source, start, q - 1, HasBackslash(source, start, q)), n, Some(delimiter), false))
  }

  /** Where a script's name ends: at the brace that opens its body, unless its line or the file ends first. */
  function NameEnd(source: string, p: nat): (q: nat)
    requires p <= |source|
    ensures p <= q <= |source|
    ensures q < |source| ==> source[q] == '{' || source[q] == '\n'
    decreases |source| - p
  {
    if p == |source| || source[p] == '{' || source[p] == '\n' then p else NameEnd(source, p + 1)
  }

  lemma {:induction false} NameEndIs(source: string, p: nat, q: nat)
    requires p <= q < |source| && source[q] == '{'
    requires forall k :: p <= k < q ==> source[k] != '{' && source[k] != '\n'
    ensures NameEnd(source, p) == q
    decreases q - p
  {
    if p < q {
      NameEndIs(source, p + 1, q);
    }
  }

  function ScriptName(written: string, unnamed: nat): string {
    var name := TrimSpace(written);
    if name == "" then "Unnamed_" + Decimal(unnamed) else name
  }

  /** A script is named by what is written without the white space around it, and by its number if that is nothing. */
  lemma ScriptNameIs(written: string, unnamed: nat) returns (i: nat, j: nat)
    ensures i <= j <= |written| && OnlySpace(written[..i]) && OnlySpace(written[j..])
    ensures var name := ScriptName(written, unnamed);
      if OnlySpace(written) then name == "Unnamed_" + Decimal(unnamed)
      else name == written[i..j] && name != "" && LeadingSpace(name) == 0 && TrailingSpace(name) == 0
  {
    i, j := TrimSpaceTrims(written);
    TrimmedAwayIff(written);
  }

  /** A script that begins at `p`, from the brace at `n` that opens its body. */
  function LexBody(source: string, p: nat, n: nat, name: string, numbered: bool): Result<Lexeme, LexError>
    requires p <= n < |source|
  {
    match Run(source, n + 1, Code, 0)
    case Failure(e) => Failure(e)
    case Success(q) =>
      Success(Lexeme(
        Token(Script, name, LineAt(source, p), OffsetAt(source, p), p, q + 1, n + 1, q, false), q + 1, None, numbered))
  }

  function LexScript(source: string, p: nat, unnamed: nat): Result<Lexeme, LexError>
    requires p < |source| && source[p] == '$'
  {
    var n := NameEnd(source, p + 1);
    if n == |source| then Failure(UnexpectedEof)
    else if source[n] == '\n' then Failure(NewlineInName)
    else
      LexBody(source, p, n, ScriptName(source[p + 1..n], unnamed), TrimSpace(source[p + 1..n]) == "")
  }

  lemma PartsAgree(source: string, other: string, end: nat, p: nat, q: nat)
    requires p <= q <= end <= |source| && end <= |other| && source[..end] == other[..end]
    ensures source[p..q] == other[p..q]
  {
    assert source[p..q] == source[..end][p..q] == other[..end][p..q] == other[p..q];
  }

  lemma {:induction false} NameEndIsPrefixStable(source: string, other: string, p: nat, end: nat)
    requires p < end <= |source| && end <= |other| && source[..end] == other[..end] && NameEnd(source, p) < end
    ensures NameEnd(other, p) == NameEnd(source, p)
    decreases |source| - p
  {
    assert source[p] == source[..end][p] == other[..end][p] == other[p];
    if source[p] != '{' && source[p] != '\n' {
      NameEndIsPrefixStable(source, other, p + 1, end);
    }
  }

  lemma NameIsPrefixStable(source: string, other: string, p: nat, end: nat)
    requires p + 1 < end <= |source| && end <= |other| && source[..end] == other[..end] && NameEnd(source, p + 1) < end
    ensures other[p] == source[p] && NameEnd(other, p + 1) == NameEnd(source, p + 1)
    ensures other[p + 1..NameEnd(source, p + 1)] == source[p + 1..NameEnd(source, p + 1)]
  {
    PartsAgree(source, other, end, p + 1, NameEnd(source, p + 1));
    NameEndIsPrefixStable(source, other, p + 1, end);
    assert source[p] == source[..end][p] == other[..end][p] == other[p];
  }

  lemma BodyIsPrefixStable(source: string, other: string, p: nat, n: nat, name: string, numbered: bool)
    requires p <= n < |source| && LexBody(source, p, n, name, numbered).Success?
    requires var end := LexBody(source, p, n, name, numbered).value.next;
      end <= |other| && other[..end] == source[..end]
    ensures n < |other| && LexBody(other, p, n, name, numbered) == LexBody(source, p, n, name, numbered)
  {
    var end := LexBody(source, p, n, name, numbered).value.next;
    PartsAgree(source, other, end, 0, p);
    RecountIsPrefixStable(source, other, p);
    PartsAgree(source, other, end, n + 1, end);
    RunIsPrefixStable(source, n + 1, other, n + 1, Code, 0);
  }

  /** The lexer reads a script up to its end and no further: name, number, line and column are settled there. */
  lemma ScriptIsPrefixStable(source: string, other: string, p: nat, unnamed: nat)
    requires p < |source| && source[p] == '$' && LexScript(source, p, unnamed).Success?
    requires var end := LexScript(source, p, unnamed).value.next;
      end <= |other| && other[..end] == source[..end]
    ensures p < |other| && other[p] == '$' && LexScript(other, p, unnamed) == LexScript(source, p, unnamed)
  {
    var n := NameEnd(source, p + 1);
    var written := source[p + 1..n];
    NameIsPrefixStable(source, other, p, LexScript(source, p, unnamed).value.next);
    BodyIsPrefixStable(source, other, p, n, ScriptName(written, unnamed), TrimSpace(written) == "");
  }

  function EofToken(source: string): Token {
    NO_TOKEN.(kind := EOF, line := LineAt(source, |source|), offset := OffsetAt(source, |source|),
              payloadStart := -1, payloadEnd := -1)
  }

  function LexAt(source: string, p: nat, unnamed: nat): (r: Result<Lexeme, LexError>)
    requires p <= |source|
    ensures r.Success? ==> p <= r.value.next <= |source|
    ensures r.Success? ==> (r.value.next == p <==> r.value.token.kind == EOF)
    ensures r.Success? && r.value.pending.Some? ==>
      r.value.token.kind == Text && r.value.pending.value.kind == Delimiter
    ensures r.Success? ==> r.value.token.kind != IncompleteToken
  {
    if p == |source| then Success(Lexeme(EofToken(source), p, None, false))
    else if source[p] == '$' then LexScript(source, p, unnamed)
    else LexText(source, p)
  }
}
