/**
 What holds of the tokens of every file: they tile it, they carry the right line and column, and
 extracting the text of any of them is safe.
 */
module TokenTiling {
  import opened ByteScanner
  import opened GoStrings
  import opened Lexing
  import opened Blueprints

  /** The tokens of a file from a cursor on, up to the end of the file or the first lexical error. */
  function Tokens(source: string, c: Cursor): seq<Token>
    requires CursorIn(source, c)
    decreases |source| - c.at, c.pending.Some?
  {
    match NextToken(source, c)
    case Failure(_) => []
    case Success((t, next)) => if t.kind == EOF then [t] else [t] + Tokens(source, next)
  }

  predicate AllSpace(source: string, p: nat, q: nat)
    requires p <= q <= |source|
  {
    forall k :: p <= k < q ==> IsSpace(source[k])
  }

  /** Where a token's bytes begin; the delimiter at a file's very start claims to begin before it. */
  function Begin(t: Token): int {
    if t.start < 0 then 0 else t.start
  }

  /** A delimiter is reported at its first `#`, one byte after the newline it begins with. */
  predicate WellLocated(source: string, t: Token) {
    var p := if t.kind == Delimiter then t.start + 1 else t.start;
    0 <= p <= |source| && t.line == LineAt(source, p) && t.offset == OffsetAt(source, p)
  }

  /** These tokens come one after another from `p` on, with nothing but white space between them and behind them. */
  predicate Tile(source: string, p: nat, ts: seq<Token>)
    requires p <= |source|
    decreases |ts|
  {
    |ts| > 0 ==>
      var t := ts[0];
      if t.kind == EOF then AllSpace(source, p, |source|)
      else
        && p <= Begin(t) < t.end <= |source| && AllSpace(source, p, Begin(t))
        && WellLocated(source, t)
        && Tile(source, t.end, ts[1..])
  }

  /** The lexer stands at `c` and every byte before it, from `p` on, is white space or of the delimiter held back. */
  predicate Read(source: string, p: nat, c: Cursor)
    requires CursorIn(source, c)
  {
    match c.pending
    case Some(t) =>
      p == t.start < t.end == c.at < |source| && source[c.at] == '\n' && WellLocated(source, t)
    case None =>
      && p <= c.at && AllSpace(source, p, c.at)
      && (0 < p == c.at < |source| && source[c.at] == '#' ==> Prev(source, c.at) != '\n' && Prev(source, c.at) != NUL)
  }

  /** What is known of a token read when every byte before `p` was accounted for. */
  predicate Follows(source: string, p: nat, t: Token)
    requires p <= |source|
  {
    && p <= Begin(t) < t.end <= |source| && AllSpace(source, p, Begin(t))
    && WellLocated(source, t)
    && (t.kind != Delimiter ==> t.start >= 0)
    && ExtractsSafely(source, t)
  }

  lemma ScriptFollows(source: string, p: nat, c: Cursor)
    requires CursorIn(source, c) && Read(source, p, c) && c.pending.None? && LexOnly(source, c).Success?
    requires c.at < |source| && source[c.at] == '$'
    ensures var (t, next) := LexOnly(source, c).value;
      t.kind == Script && Follows(source, p, t) && next.pending.None? && next.at == t.end && source[t.end - 1] == '}'
  {
  }

  /** How a text ended: at the byte that stopped it, at the newline before a delimiter, or with the file. */
  datatype TextEnd = AtStop | BeforeDelimiter | LastLine

  predicate Shaped(source: string, start: nat, t: Token, how: TextEnd)
    requires start <= |source|
  {
    var stop := StopPos(source, start, start);
    && start < t.end <= |source| && t == TextToken(source, start, t.end, t.hasEscapes)
    && t.hasEscapes == HasBackslash(source, start, stop)
    && match how
       case AtStop => t.end == stop && !Escaped(source, start, stop)
       case BeforeDelimiter =>
         t.end == stop - 1 && stop < |source| && HashLine(source, stop) && !Escaped(source, start, stop)
       case LastLine => t.end == |source| && stop < |source| && source[|source| - 1] != '\\'
  }

  lemma TextShape(source: string, start: nat) returns (t: Token, how: TextEnd)
    requires start < |source| && source[start] != '$'
    requires LexText(source, start).Success? && LexText(source, start).value.token.kind == Text
    ensures t == LexText(source, start).value.token && Shaped(source, start, t, how)
    ensures LexText(source, start).value.pending.Some? <==> how == BeforeDelimiter
  {
    t := LexText(source, start).value.token;
    var q := StopPos(source, start, start);
    how := if q == |source| || source[q] == '$' then AtStop
           else if IndexFrom(source, q + 3, '\n') == |source| then LastLine else BeforeDelimiter;
  }

  /** Unescaping reads one byte past the text exactly when the text ends in an unescaped backslash. */
  lemma {:induction false} ReadsAtMostOneMore(source: string, start: nat, i: nat, end: nat)
    requires start <= i <= end <= |source| && !Escaped(source, start, i)
    ensures ReadsUpTo(source, i, end) == if Escaped(source, start, end) then end + 1 else end
    decreases end - i
  {
    if i < end {
      if source[i] != '\\' {
        ReadsAtMostOneMore(source, start, i + 1, end);
      } else if i + 1 < end {
        ReadsAtMostOneMore(source, start, i + 2, end);
      }
    }
  }

  /** A text keeps within the source even when it is unescaped. */
  lemma TextExtractsSafely(source: string, start: nat)
    requires start < |source| && source[start] != '$'
    requires LexText(source, start).Success? && LexText(source, start).value.token.kind == Text
    ensures ExtractsSafely(source, LexText(source, start).value.token)
  {
    var t, how := TextShape(source, start);
    ReadsAtMostOneMore(source, start, start, t.end);
  }

  lemma TextTokenFollows(source: string, p: nat, c: Cursor)
    requires CursorIn(source, c) && Read(source, p, c) && c.pending.None? && c.at < |source| && source[c.at] != '$'
    requires LexText(source, c.at).Success? && LexText(source, c.at).value.token.kind == Text
    ensures Follows(source, p, LexText(source, c.at).value.token)
  {
    var t, how := TextShape(source, c.at);
    TextExtractsSafely(source, c.at);
  }

  /** Behind a text nothing is left over but the delimiter held back, if there is one. */
  lemma ReadBehindText(source: string, start: nat, unnamed: nat)
    requires start < |source| && source[start] != '$'
    requires LexText(source, start).Success? && LexText(source, start).value.token.kind == Text
    ensures var Lexeme(t, next, pending, _) := LexText(source, start).value;
      t.end <= |source| && CursorIn(source, Cursor(next, pending, unnamed))
        && Read(source, t.end, Cursor(next, pending, unnamed))
  {
    var t, how := TextShape(source, start);
    if how == BeforeDelimiter {
      IndexFromFinds(source, StopPos(source, start, start) + 3, '\n');
    }
  }

  /** A delimiter with no text before it: nothing but the newline it begins with was left to read. */
  lemma DelimiterFollows(source: string, p: nat, c: Cursor)
    requires CursorIn(source, c) && Read(source, p, c) && c.pending.None? && c.at < |source| && source[c.at] != '$'
    requires LexText(source, c.at).Success? && LexText(source, c.at).value.token.kind == Delimiter
    ensures var Lexeme(t, next, pending, _) := LexText(source, c.at).value;
      Follows(source, p, t) && pending.None? && next == t.end < |source| && source[t.end] == '\n'
  {
    IndexFromFinds(source, StopPos(source, c.at, c.at) + 3, '\n');
  }

  lemma TextFollows(source: string, p: nat, c: Cursor)
    requires CursorIn(source, c) && Read(source, p, c) && c.pending.None? && LexOnly(source, c).Success?
    requires c.at < |source| && source[c.at] != '$'
    ensures var (t, next) := LexOnly(source, c).value;
      Follows(source, p, t) &&
      if t.kind == Delimiter then next.pending.None? && next.at == t.end < |source| && source[t.end] == '\n'
      else t.kind == Text && Read(source, t.end, next)
  {
    if LexText(source, c.at).value.token.kind == Delimiter {
      DelimiterFollows(source, p, c);
    } else {
      TextTokenFollows(source, p, c);
      ReadBehindText(source, c.at, c.unnamed);
    }
  }

  lemma NextFollows(source: string, p: nat, c: Cursor)
    requires CursorIn(source, c) && Read(source, p, c) && NextToken(source, c).Success?
    ensures var (t, next) := NextToken(source, c).value;
      if t.kind == EOF then AllSpace(source, p, |source|)
      else Follows(source, p, t) && Read(source, t.end, next)
  {
    var (t, next) := LexOnly(source, c).value;
    SkipSpaceSkips(source, next.at);
    if c.pending.None? && t.kind == Script {
      ScriptFollows(source, p, c);
    } else if c.pending.None? && t.kind != EOF {
      TextFollows(source, p, c);
    }
  }

  /** The tokens of every file tile it, and carry the line and column a recount gives. */
  lemma {:induction false} TokensTile(source: string, p: nat, c: Cursor)
    requires CursorIn(source, c) && Read(source, p, c)
    ensures Tile(source, p, Tokens(source, c))
    decreases |source| - c.at, c.pending.Some?
  {
    if NextToken(source, c).Success? {
      NextFollows(source, p, c);
      var (t, next) := NextToken(source, c).value;
      if t.kind != EOF {
        TokensTile(source, t.end, next);
      }
    }
  }

  lemma FileTokensTile(source: string)
    ensures Tile(source, 0, Tokens(source, Start(source)))
  {
    SkipSpaceSkips(source, 0);
    TokensTile(source, 0, Start(source));
  }

  // ----- the requests a parse keeps -----

  /** Consecutive tokens of a request do not overlap and appear in the file's order. */
  predicate InOrder(ts: seq<Token>) {
    && (forall i :: 0 <= i < |ts| ==> 0 <= ts[i].start < ts[i].end)
    && (forall i :: 0 < i < |ts| ==> ts[i - 1].end <= ts[i].start)
  }

  predicate SafeToken(source: string, t: Token) {
    ExtractsSafely(source, t)
  }

  /** Everything extraction and materialization ask of a request. */
  predicate Sound(source: string, b: Blueprint) {
    && InOrder(b.content)
    && (forall t <- b.content :: SafeToken(source, t) && t.kind in {Text, Script})
    && SafeToken(source, b.pre) && SafeToken(source, b.retry) && SafeToken(source, b.asserts)
    && SafeToken(source, b.post)
  }

  predicate AllSound(source: string, p: nat, rs: Requests) {
    && (forall b <- rs.done :: Sound(source, b))
    && Sound(source, rs.current)
    && (|rs.current.content| > 0 ==> rs.current.content[|rs.current.content| - 1].end <= p)
  }

  lemma LifecycleKeepsSound(source: string, p: nat, rs: Requests, t: Token)
    requires p <= t.end <= |source| && t.kind == Script && IsLifecycle(t.name) && SafeToken(source, t)
    requires AllSound(source, p, rs) && Absorb(source, rs, t).Success?
    ensures AllSound(source, t.end, Absorb(source, rs, t).value)
  {
    assert Sound(source, rs.current);
    assert Absorb(source, rs, t).value.current.content == rs.current.content;
  }

  lemma DelimiterKeepsSound(source: string, p: nat, rs: Requests, t: Token)
    requires p <= t.end <= |source| && t.kind == Delimiter && AllSound(source, p, rs) && Absorb(source, rs, t).Success?
    ensures AllSound(source, t.end, Absorb(source, rs, t).value)
  {
    assert Sound(source, Absorb(source, rs, t).value.current);
  }

  lemma AppendKeepsSound(source: string, p: nat, b: Blueprint, t: Token)
    requires p <= |source| && Follows(source, p, t) && t.kind in {Text, Script} && Sound(source, b)
    requires |b.content| > 0 ==> b.content[|b.content| - 1].end <= p
    ensures Sound(source, b.(content := b.content + [t]))
  {
    var more := b.content + [t];
    assert InOrder(more);
    forall u <- more
      ensures SafeToken(source, u) && u.kind in {Text, Script}
    {
      assert u in b.content || u == t;
    }
  }

  lemma {:induction false} AbsorbKeepsSound(source: string, p: nat, rs: Requests, t: Token)
    requires p <= |source| && Follows(source, p, t) && t.kind in {Text, Script, Delimiter} && AllSound(source, p, rs)
    requires Absorb(source, rs, t).Success?
    ensures AllSound(source, t.end, Absorb(source, rs, t).value)
  {
    if t.kind == Delimiter {
      DelimiterKeepsSound(source, p, rs, t);
    } else if t.kind == Script && IsLifecycle(t.name) {
      LifecycleKeepsSound(source, p, rs, t);
    } else {
      AppendKeepsSound(source, p, rs.current, t);
      assert Absorb(source, rs, t).value == rs.(current := rs.current.(content := rs.current.content + [t]));
    }
  }

  /** Every request of a successful parse is sound. */
  lemma {:induction false} ParsedRequestsAreSound(source: string, p: nat, c: Cursor, rs: Requests)
    requires CursorIn(source, c) && Read(source, p, c) && AllSound(source, p, rs)
    ensures ParseFrom(source, c, rs).Success? ==> forall b <- ParseFrom(source, c, rs).value :: Sound(source, b)
    decreases |source| - c.at, c.pending.Some?
  {
    if NextToken(source, c).Success? {
      NextFollows(source, p, c);
      var (t, next) := NextToken(source, c).value;
      if t.kind != EOF && Absorb(source, rs, t).Success? {
        AbsorbKeepsSound(source, p, rs, t);
        ParsedRequestsAreSound(source, t.end, next, Absorb(source, rs, t).value);
      }
    }
  }

  lemma FileRequestsAreSound(source: string)
    ensures ParseFile(source).Success? ==> forall b <- ParseFile(source).value :: Sound(source, b)
  {
    SkipSpaceSkips(source, 0);
    ParsedRequestsAreSound(source, 0, Start(source), Requests([], EMPTY_BLUEPRINT));
  }

  /** The buffer that materializing a request allocates has a size that is not negative. */
  function MaterializedCapacity(b: Blueprint): int {
    if |b.content| == 0 then 0 else b.content[|b.content| - 1].end - b.content[0].start
  }

  lemma {:induction false} CapacityUpTo(ts: seq<Token>, n: nat)
    requires InOrder(ts) && n <= |ts|
    ensures n > 0 ==> ts[n - 1].end - ts[0].start >= n
  {
    if n > 1 {
      CapacityUpTo(ts, n - 1);
    }
  }

  lemma CapacityIsNatural(source: string, b: Blueprint)
    requires Sound(source, b)
    ensures MaterializedCapacity(b) >= |b.content|
  {
    CapacityUpTo(b.content, |b.content|);
  }

  // ----- what a text's bytes are -----

  lemma PastTheEnd(source: string, start: nat, t: Token, how: TextEnd)
    requires start <= |source| && Shaped(source, start, t, how)
    ensures start <= t.payloadEnd <= |source| && t.payloadStart == start
    ensures ReadsUpTo(source, start, t.payloadEnd) > t.payloadEnd <==>
      how == BeforeDelimiter && Escaped(source, start, t.payloadEnd)
    ensures ReadsUpTo(source, start, t.payloadEnd) > t.payloadEnd ==>
      && t.hasEscapes && t.payloadEnd < |source| && source[t.payloadEnd] in {'\n', NUL}
      && HashLine(source, t.payloadEnd + 1)
  {
    ReadsAtMostOneMore(source, start, start, t.end);
    if Escaped(source, start, t.end) {
      assert source[t.end - 1] == '\\';
    }
  }

  /**
   A text is read past its end exactly when it ends in an unescaped backslash; then a delimiter closed
   it, and the byte read is the newline (or NUL) the delimiter begins with.
   */
  lemma ReadsPastTheEndIff(source: string, start: nat)
    requires start < |source| && source[start] != '$'
    requires LexText(source, start).Success? && LexText(source, start).value.token.kind == Text
    ensures var lexeme := LexText(source, start).value;
      var end := lexeme.token.payloadEnd;
      && start <= end <= |source| && lexeme.token.payloadStart == start
      && (ReadsUpTo(source, start, end) > end <==> lexeme.pending.Some? && Escaped(source, start, end))
      && (ReadsUpTo(source, start, end) > end ==>
          && lexeme.token.hasEscapes && end < |source| && source[end] in {'\n', NUL}
          && HashLine(source, end + 1))
  {
    var t, how := TextShape(source, start);
    PastTheEnd(source, start, t, how);
  }

  lemma {:induction false} UnescapePlain(source: string, i: nat, end: nat)
    requires i <= end <= |source| && forall k :: i <= k < end ==> source[k] != '\\'
    ensures Unescape(source, i, end) == source[i..end]
    decreases end - i
  {
    if i < end {
      UnescapePlain(source, i + 1, end);
    }
  }

  lemma {:induction false} UnescapeLength(source: string, i: nat, end: nat)
    requires i <= end <= |source| && ReadsUpTo(source, i, end) == end
    ensures |Unescape(source, i, end)| <= end - i
    decreases end - i
  {
    if i < end {
      UnescapeLength(source, if source[i] == '\\' then i + 2 else i + 1, end);
    }
  }

  lemma {:induction false} UnescapeShrinks(source: string, i: nat, end: nat, k: nat)
    requires i <= k < end <= |source| && source[k] == '\\' && ReadsUpTo(source, i, end) == end
    ensures |Unescape(source, i, end)| < end - i
    decreases end - i
  {
    if source[i] == '\\' {
      UnescapeLength(source, i + 2, end);
    } else {
      UnescapeShrinks(source, i + 1, end, k);
    }
  }

  lemma RawIsUnescapedIff(source: string, start: nat, end: nat)
    requires start <= end <= |source| && !Escaped(source, start, end)
    ensures source[start..end] == Unescape(source, start, end) <==> !HasBackslash(source, start, end)
  {
    if HasBackslash(source, start, end) {
      var k :| start <= k < end && source[k] == '\\';
      ReadsAtMostOneMore(source, start, start, end);
      UnescapeShrinks(source, start, end, k);
    } else {
      UnescapePlain(source, start, end);
    }
  }

  lemma PayloadOfText(source: string, start: nat, stop: nat, end: nat, t: Token)
    requires start < end <= |source| && start <= stop <= |source|
    requires t == TextToken(source, start, end, HasBackslash(source, start, stop))
    requires end <= stop || !Escaped(source, start, end)
    ensures InSource(source, t)
    ensures Payload(source, t) == Unescape(source, start, end) <==>
      HasBackslash(source, start, stop) || !HasBackslash(source, start, end)
  {
    if !t.hasEscapes {
      if end <= stop {
        assert !HasBackslash(source, start, end);
        UnescapePlain(source, start, end);
      } else {
        RawIsUnescapedIff(source, start, end);
      }
    }
  }

  /**
   A text's payload is its bytes unescaped, unless its only backslashes are in a last `###` line that no
   newline ends: those the lexer does not see, and the text is taken as it stands.
   */
  lemma {:induction false} PayloadIsUnescapedIff(source: string, start: nat)
    requires start < |source| && source[start] != '$'
    requires LexText(source, start).Success? && LexText(source, start).value.token.kind == Text
    ensures var t := LexText(source, start).value.token;
      var stop := StopPos(source, start, start);
      && InSource(source, t) && t.payloadStart == start
      && (Payload(source, t) == Unescape(source, start, t.payloadEnd) <==>
          HasBackslash(source, start, stop) || !HasBackslash(source, start, t.payloadEnd))
  {
    var t, how := TextShape(source, start);
    PayloadOfText(source, start, StopPos(source, start, start), t.end, t);
  }

  /** Such a file: one text, read as it stands although a backslash is in it. */
  lemma {:induction false} SwallowedBackslashStays()
    ensures var source := "a\n### \\b";
      var t := LexText(source, 0);
      t.Success? && t.value.token.kind == Text && Payload(source, t.value.token) == source
  {
    var source := "a\n### \\b";
    assert HashLine(source, 2);
    StopPosIs(source, 0, 0, 2);
    IndexFromIs(source, 5, '\n', 8);
  }
}
