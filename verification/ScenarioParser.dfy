/**
 The tokenizer of `.sinq` files (internal/scenario/scenario-parser.go): a cursor moved in place, an
 escape flag, a delimiter held back for one call, and a recursive-descent skipper over Lua.

 Every method is proved against the descriptions by position of LuaAutomaton.dfy and Lexing.dfy.
 The text of error messages is not modelled, only which error it is.
 */
module ScenarioParser {
  import opened Prelude
  import opened ByteScanner
  import opened GoStrings
  import opened LuaAutomaton
  import opened Lexing
  import opened LuaElements

  type Outcome = Result<(), LexError>

  /** What one more byte of its line does to a delimiter token. */
  lemma DelimiterGrows(source: string, q: nat, at: nat)
    requires q + 3 <= at < |source|
    ensures var t := DelimiterToken(source, q, at);
      DelimiterToken(source, q, at + 1) ==
        if IsSpace(source[at]) then t.(end := at + 1)
        else t.(end := at + 1, payloadStart := if t.payloadStart == 0 then at else t.payloadStart,
                payloadEnd := at + 1, hasEscapes := t.hasEscapes || source[at] == '\\')
  {
    SkipSpaceSkips(source, q + 3);
    assert HasBackslash(source, q + 3, at + 1) <==> HasBackslash(source, q + 3, at) || source[at] == '\\';
    assert IsSpace(source[at]) <==> LastNonSpace(source, q + 3, at + 1) != at + 1;
  }

  /** Up to three `#` that begin no delimiter end no text, and what follows them is not escaped. */
  lemma {:induction false} HashRunIsPlain(source: string, start: nat, q: nat, at: nat)
    requires start <= q < at <= q + 3 && at <= |source|
    requires !Escaped(source, start, q) && !HashLine(source, q)
    requires forall k :: q <= k < at ==> source[k] == '#'
    ensures StopPos(source, start, q) == StopPos(source, start, at) && !Escaped(source, start, at)
    ensures HasBackslash(source, start, at) == HasBackslash(source, start, q)
    decreases at - q
  {
    if q + 1 < at {
      HashRunIsPlain(source, start, q + 1, at);
    }
  }

  class Parser {
    const scanner: Scanner
    var unnamedScriptIdx: nat
    var currentScriptName: string
    var delimiterToken: Token

    ghost predicate Valid()
      reads this, scanner
    {
      scanner.Valid()
    }

    constructor (source: string)
      ensures Valid() && fresh(scanner)
      ensures scanner.source == source && scanner.current == 0
      ensures unnamedScriptIdx == 0 && delimiterToken == NO_TOKEN
    {
      scanner := new Scanner(source);
      unnamedScriptIdx, currentScriptName, delimiterToken := 0, "", NO_TOKEN;
    }

    method Match(expected: char) returns (r: Outcome)
      requires Valid()
      modifies scanner
      ensures Valid()
      ensures scanner.current ==
        if old(scanner.current) < |scanner.source| then old(scanner.current) + 1 else old(scanner.current)
      ensures r ==
        if old(scanner.current) == |scanner.source| then Failure(UnexpectedEof)
        else if scanner.source[old(scanner.current)] != expected then Failure(UnexpectedByte)
        else Success(())
    {
      var b := scanner.Read();
      scanner.Advance();
      if b.None? {
        return Failure(UnexpectedEof);
      }
      if b.value != expected {
        return Failure(UnexpectedByte);
      }
      return Success(());
    }

    // ----- skipping Lua -----

    method ParseLuaScript(ghost depth: nat) returns (r: Outcome)
      requires Valid()
      modifies scanner
      ensures Valid() && scanner.current >= old(scanner.current)
      ensures r.Success? ==> scanner.current < |scanner.source| && scanner.source[scanner.current] == '}'
      ensures r.Success? ==>
        Run(scanner.source, old(scanner.current), Code, depth)
        == if depth == 0 then Success(scanner.current) else Run(scanner.source, scanner.current + 1, Code, depth - 1)
      ensures r.Failure? ==> Run(scanner.source, old(scanner.current), Code, depth) == Failure(r.error)
      decreases |scanner.source| - scanner.current
    {
      while true
        invariant Valid() && scanner.current >= old(scanner.current)
        invariant Run(scanner.source, old(scanner.current), Code, depth) ==
          Run(scanner.source, scanner.current, Code, depth)
        decreases |scanner.source| - scanner.current
      {
        var b := scanner.Read();
        if b.None? {
          return Failure(UnexpectedEof);
        }
        match b.value
        case '-' =>
          var err := ParseLuaComment(depth);
          if err.Failure? {
            return err;
          }
        case '"' =>
          var err := ParseLuaSimpleString(depth);
          if err.Failure? {
            return err;
          }
        case '\'' =>
          var err := ParseLuaSimpleString(depth);
          if err.Failure? {
            return err;
          }
        case '[' =>
          var level := ParseLongBracketOpen(false, depth);
          if level.Failure? {
            return Failure(level.error);
          }
          if level.value < 0 {
            continue;
          }
          var err := ParseLuaMultilineStringWithCloser(level.value, depth);
          if err.Failure? {
            return err;
          }
        case '{' =>
          scanner.Advance();
          var err := ParseLuaScript(depth + 1);
          if err.Failure? {
            return err;
          }
          err := Match('}');
          if err.Failure? {
            return err;
          }
        case '}' =>
          return Success(());
        case _ =>
          scanner.Advance();
      }
    }

    method ParseLuaComment(ghost depth: nat) returns (r: Outcome)
      requires Valid()
      requires scanner.current < |scanner.source| && scanner.source[scanner.current] == '-'
      modifies scanner
      ensures Valid() && scanner.current > old(scanner.current)
      ensures r.Success? ==>
        Run(scanner.source, old(scanner.current), Code, depth) == Run(scanner.source, scanner.current, Code, depth)
      ensures r.Failure? ==> Run(scanner.source, old(scanner.current), Code, depth) == Failure(r.error)
    {
      for i := 0 to 2
        invariant Valid() && scanner.current == old(scanner.current) + i
        invariant Run(scanner.source, old(scanner.current), Code, depth)
               == Run(scanner.source, scanner.current,
                     if i == 0 then Code else if i == 1 then Dash else DoubleDash, depth)
      {
        var b := scanner.Read();
        if b.None? {
          return Failure(UnexpectedEof);
        }
        if b.value != '-' {
          return Success(());
        }
        scanner.Advance();
      }

      var canBeBracket := scanner.Read();
      if canBeBracket.None? {
        return Failure(UnexpectedEof);
      }
      if canBeBracket.value == '[' {
        var level := ParseLongBracketOpen(true, depth);
        if level.Failure? {
          return Failure(level.error);
        }
        if level.value < 0 {
          r := ParseLuaSimpleComment(depth);
          return r;
        }
        r := ParseLuaMultilineStringWithCloser(level.value, depth);
        return r;
      }
      r := ParseLuaSimpleComment(depth);
    }

    /** To behind the newline. */
    method ParseLuaSimpleComment(ghost depth: nat) returns (r: Outcome)
      requires Valid()
      modifies scanner
      ensures Valid() && scanner.current >= old(scanner.current)
      ensures var e := IndexFrom(scanner.source, old(scanner.current), '\n');
        if e < |scanner.source| then r == Success(()) && scanner.current == e + 1 else r == Failure(UnexpectedEof)
      ensures r.Success? ==>
        Run(scanner.source, old(scanner.current), LineComment, depth) ==
          Run(scanner.source, scanner.current, Code, depth)
      ensures r.Failure? ==> Run(scanner.source, old(scanner.current), LineComment, depth) == Failure(r.error)
    {
      LineCommentEndsAtNewline(scanner.source, scanner.current, depth);
      while true
        invariant Valid() && scanner.current >= old(scanner.current)
        invariant IndexFrom(scanner.source, old(scanner.current), '\n')
               == IndexFrom(scanner.source, scanner.current, '\n')
        decreases |scanner.source| - scanner.current
      {
        var b := scanner.Read();
        scanner.Advance();
        if b.None? {
          return Failure(UnexpectedEof);
        }
        if b.value == '\n' {
          return Success(());
        }
      }
    }

    /** To behind the first quote that is not escaped. */
    method ParseLuaSimpleString(ghost depth: nat) returns (r: Outcome)
      requires Valid()
      requires scanner.current < |scanner.source| && scanner.source[scanner.current] in {'"', '\''}
      modifies scanner
      ensures Valid() && scanner.current > old(scanner.current)
      ensures var source, p := scanner.source, old(scanner.current) + 1;
        var e := StringStop(source, p, p, source[p - 1]);
        if e < |source| && source[e] == source[p - 1] then r == Success(()) && scanner.current == e + 1
        else r == Failure(UnclosedString)
      ensures r.Success? ==>
        Run(scanner.source, old(scanner.current), Code, depth) == Run(scanner.source, scanner.current, Code, depth)
      ensures r.Failure? ==> Run(scanner.source, old(scanner.current), Code, depth) == Failure(r.error)
    {
      var quote := scanner.Read().value;
      scanner.Advance();
      ghost var source, p := scanner.source, scanner.current;
      StringEndsAtUnescapedQuote(source, p, quote, depth);
      var isEscaped := false;
      while true
        invariant Valid() && p <= scanner.current
        invariant StringStop(source, p, p, quote) == StringStop(source, p, scanner.current, quote)
        invariant isEscaped <==> BackslashesBefore(source, p, scanner.current) % 2 == 1
        decreases |source| - scanner.current
      {
        var b := scanner.Read();
        if b.None? {
          return Failure(UnclosedString);
        }
        if b.value == '\n' && !isEscaped {
          return Failure(UnclosedString);
        }
        scanner.Advance();
        if isEscaped {
          isEscaped := false;
          continue;
        }
        if b.value == quote {
          return Success(());
        } else if b.value == '\\' {
          isEscaped := true;
        }
      }
    }

    method ParseLuaMultilineStringWithCloser(level: nat, ghost depth: nat) returns (r: Outcome)
      requires Valid()
      modifies scanner
      ensures Valid() && scanner.current >= old(scanner.current)
      ensures r.Success? ==>
        Run(scanner.source, old(scanner.current), Long(level), depth) ==
          Run(scanner.source, scanner.current, Code, depth)
      ensures r.Failure? ==> Run(scanner.source, old(scanner.current), Long(level), depth) == Failure(r.error)
    {
      var closerLevel: int := -1;
      while closerLevel != level
        invariant Valid() && scanner.current >= old(scanner.current)
        invariant Run(scanner.source, old(scanner.current), Long(level), depth)
               == Run(scanner.source, scanner.current, if closerLevel == level then Code else Long(level), depth)
        decreases |scanner.source| - scanner.current, closerLevel != level
      {
        var err := ParseLuaMultilineString(level, depth);
        if err.Failure? {
          return err;
        }
        err := Match(']');
        if err.Failure? {
          return err;
        }
        var next := ParseLongBracketClose(level, depth);
        if next.Failure? {
          return Failure(next.error);
        }
        closerLevel := next.value;
      }
      return Success(());
    }

    method ParseLuaMultilineString(ghost level: nat, ghost depth: nat) returns (r: Outcome)
      requires Valid()
      modifies scanner
      ensures Valid() && scanner.current >= old(scanner.current)
      ensures r.Success? ==> scanner.current < |scanner.source| && scanner.source[scanner.current] == ']'
      ensures r.Success? ==>
        Run(scanner.source, old(scanner.current), Long(level), depth) ==
          Run(scanner.source, scanner.current, Long(level), depth)
      ensures r.Failure? ==> Run(scanner.source, old(scanner.current), Long(level), depth) == Failure(r.error)
    {
      while true
        invariant Valid() && scanner.current >= old(scanner.current)
        invariant Run(scanner.source, old(scanner.current), Long(level), depth)
               == Run(scanner.source, scanner.current, Long(level), depth)
        decreases |scanner.source| - scanner.current
      {
        var b := scanner.Read();
        if b.None? {
          return Failure(UnexpectedEof);
        }
        if b.value == ']' {
          return Success(());
        }
        scanner.Advance();
      }
    }

    /** A non-negative result is the level of the bracket opened; -1 leaves the cursor on the byte that spoils it. */
    method ParseLongBracketOpen(ghost comment: bool, ghost depth: nat) returns (r: Result<int, LexError>)
      requires Valid()
      requires scanner.current < |scanner.source| && scanner.source[scanner.current] == '['
      modifies scanner
      ensures Valid() && scanner.current > old(scanner.current)
      ensures var before := Run(scanner.source, old(scanner.current), if comment then DoubleDash else Code, depth);
        match r
        case Failure(e) => before == Failure(e)
        case Success(level) =>
          before == Run(scanner.source, scanner.current,
                        if level >= 0 then Long(level) else if comment then LineComment else Code, depth)
    {
      var err := Match('[');
      assert err.Success?;
      var layer := 0;
      while true
        invariant Valid() && scanner.current > old(scanner.current)
        invariant Run(scanner.source, old(scanner.current), if comment then DoubleDash else Code, depth)
               == Run(scanner.source, scanner.current, Open(layer, comment), depth)
        decreases |scanner.source| - scanner.current
      {
        var b := scanner.Read();
        if b.None? {
          return Failure(UnexpectedEof);
        }
        match b.value {
          case '[' =>
            scanner.Advance();
            return Success(layer);
          case '=' =>
            layer := layer + 1;
          case _ =>
            return Success(-1);
        }
        scanner.Advance();
      }
    }

    method ParseLongBracketClose(ghost level: nat, ghost depth: nat) returns (r: Result<int, LexError>)
      requires Valid()
      modifies scanner
      ensures Valid() && scanner.current >= old(scanner.current)
      ensures var before := Run(scanner.source, old(scanner.current), Close(level, 0), depth);
        match r
        case Failure(e) => before == Failure(e)
        case Success(found) => before == Run(scanner.source, scanner.current,
          if found == level then Code else Long(level), depth)
    {
      var layer := 0;
      while true
        invariant Valid() && scanner.current >= old(scanner.current)
        invariant Run(scanner.source, old(scanner.current), Close(level, 0), depth)
               == Run(scanner.source, scanner.current, Close(level, layer), depth)
        decreases |scanner.source| - scanner.current
      {
        var b := scanner.Read();
        if b.None? {
          return Failure(UnexpectedEof);
        }
        match b.value {
          case ']' =>
            scanner.Advance();
            return Success(layer);
          case '=' =>
            layer := layer + 1;
          case _ =>
            return Success(-1);
        }
        scanner.Advance();
      }
    }

    // ----- tokens -----

    method ConsumeWhitespace()
      requires Valid()
      modifies scanner
      ensures Valid() && scanner.current == SkipSpace(scanner.source, old(scanner.current))
    {
      while true
        invariant Valid()
        invariant SkipSpace(scanner.source, old(scanner.current)) == SkipSpace(scanner.source, scanner.current)
        decreases |scanner.source| - scanner.current
      {
        var b := scanner.Read();
        if b.None? || !IsSpace(b.value) {
          return;
        }
        scanner.Advance();
      }
    }

    method LexToken() returns (r: Result<Token, LexError>)
      requires Valid()
      modifies this, scanner
      ensures Valid()
      ensures old(delimiterToken).kind == Delimiter ==>
        && r == Success(old(delimiterToken)) && delimiterToken == NO_TOKEN
        && scanner.current == old(scanner.current) && unnamedScriptIdx == old(unnamedScriptIdx)
      ensures old(delimiterToken).kind != Delimiter ==>
        match LexAt(scanner.source, old(scanner.current), old(unnamedScriptIdx))
        case Failure(e) => r == Failure(e)
        case Success(lexeme) =>
          && r == Success(lexeme.token) && scanner.current == lexeme.next
          && delimiterToken == (if lexeme.pending.Some? then lexeme.pending.value else old(delimiterToken))
          && unnamedScriptIdx == old(unnamedScriptIdx) + (if lexeme.numbered then 1 else 0)
    {
      if delimiterToken.kind == Delimiter {
        r := Success(delimiterToken);
        delimiterToken := NO_TOKEN;
        return;
      }
      var b := scanner.Read();
      if b.None? {
        return Success(NO_TOKEN.(kind := EOF, line := scanner.line, offset := scanner.offset,
                                 payloadStart := -1, payloadEnd := -1));
      }
      if b.value == '$' {
        r := ParseScript();
      } else {
        r := ParseText();
      }
    }

    method ParseText() returns (r: Result<Token, LexError>)
      requires Valid()
      requires scanner.current < |scanner.source| && scanner.source[scanner.current] != '$'
      modifies this`delimiterToken, scanner
      ensures Valid()
      ensures match LexText(scanner.source, old(scanner.current))
        case Failure(e) => r == Failure(e)
        case Success(lexeme) =>
          && r == Success(lexeme.token) && scanner.current == lexeme.next
          && delimiterToken == (if lexeme.pending.Some? then lexeme.pending.value else old(delimiterToken))
    {
      var isEscaped, hasEscapes := false, false;
      var res := NO_TOKEN.(kind := Text, start := scanner.current, payloadStart := scanner.current,
                           line := scanner.line, offset := scanner.offset);
      ghost var source, start := scanner.source, scanner.current;
      ghost var swallowed := false;
      ghost var stop := StopPos(source, start, start);
      while true
        invariant Valid() && start <= scanner.current
        invariant !swallowed ==> stop == StopPos(source, start, scanner.current)
        invariant delimiterToken == old(delimiterToken)
        invariant res.(hasEscapes := false) == NO_TOKEN.(kind := Text, start := start, payloadStart := start,
                    line := LineAt(source, start), offset := OffsetAt(source, start))
        invariant !swallowed ==> isEscaped == Escaped(source, start, scanner.current)
        invariant !swallowed ==> hasEscapes == HasBackslash(source, start, scanner.current)
        invariant swallowed ==>
          && scanner.current == |source| && stop < |source| && HashLine(source, stop)
          && IndexFrom(source, stop + 3, '\n') == |source|
          && isEscaped == (source[|source| - 1] == '\\') && hasEscapes == HasBackslash(source, start, stop)
        decreases |source| - scanner.current, !swallowed
      {
        var b := scanner.Read();
        if b.None? {
          res := res.(end := scanner.current, payloadEnd := scanner.current, hasEscapes := hasEscapes);
          if isEscaped {
            return Failure(EofAfterEscape);
          }
          return Success(res);
        }

        if isEscaped {
          isEscaped := false;
          scanner.Advance();
          continue;
        }

        match b.value {
          case '\\' =>
            isEscaped, hasEscapes := true, true;
          case '$' =>
            res := res.(end := scanner.current, payloadEnd := scanner.current, hasEscapes := hasEscapes);
            return Success(res);
          case '#' =>
            swallowed := HashLine(source, scanner.current);
            var done, token;
            done, token, isEscaped := ParseHash(res, hasEscapes);
            if done {
              return Success(token);
            }
            res := res.(hasEscapes := token.hasEscapes || isEscaped);
            continue;
          case _ =>
        }
        scanner.Advance();
      }
    }

    /** An unescaped `#` in a text: the end of the text, or a last line that belongs to it, or a few plain bytes. */
    method ParseHash(res: Token, hasEscapes: bool) returns (done: bool, token: Token, isEscaped: bool)
      requires Valid()
      requires scanner.current < |scanner.source| && scanner.source[scanner.current] == '#'
      requires 0 <= res.start <= scanner.current && !Escaped(scanner.source, res.start, scanner.current)
      requires StopPos(scanner.source, res.start, scanner.current) == StopPos(scanner.source, res.start, res.start)
      requires hasEscapes == HasBackslash(scanner.source, res.start, scanner.current)
      requires res.(hasEscapes := false, end := res.start, payloadEnd := res.start) ==
        TextToken(scanner.source, res.start, res.start, false)
      modifies this`delimiterToken, scanner
      ensures Valid()
      ensures done ==> var r := LexText(scanner.source, res.start);
        && r.Success? && r.value.token == token && scanner.current == r.value.next
        && delimiterToken == (if r.value.pending.Some? then r.value.pending.value else old(delimiterToken))
      ensures !done ==> delimiterToken == old(delimiterToken)
      ensures !done ==> var source, start, q, at := scanner.source, res.start, old(scanner.current), scanner.current;
        if !HashLine(source, q) then
          && q < at <= |source| && StopPos(source, start, q) == StopPos(source, start, at)
          && isEscaped == Escaped(source, start, at)
          && HasBackslash(source, start, at) == HasBackslash(source, start, q)
        else
          at == |source| == IndexFrom(source, q + 3, '\n') && isEscaped == (source[at - 1] == '\\')
    {
      var maybeEnd: int := scanner.current;
      token := ParseDelimiter();
      done, isEscaped := token.kind == Delimiter, false;
      if done {
        if res.start < maybeEnd - 1 {
          delimiterToken := token;
          token := res.(end := maybeEnd - 1, payloadEnd := maybeEnd - 1, hasEscapes := hasEscapes);
        }
        return;
      }
      isEscaped := scanner.Previous() == '\\';
      if !HashLine(scanner.source, maybeEnd) {
        HashRunIsPlain(scanner.source, res.start, maybeEnd, scanner.current);
      }
    }

    /** Reads past the `#` at the cursor at least; further, when they begin a delimiter or a last line. */
    method ParseDelimiter() returns (res: Token)
      requires Valid()
      requires scanner.current < |scanner.source| && scanner.source[scanner.current] == '#'
      modifies scanner
      ensures Valid()
      ensures var source, q := scanner.source, old(scanner.current);
        if !HashLine(source, q) then
          && res.kind != Delimiter && q < scanner.current <= q + 3
          && forall k :: q <= k < scanner.current ==> source[k] == '#'
        else if IndexFrom(source, q + 3, '\n') == |source| then
          res.kind != Delimiter && scanner.current == |source|
        else
          res == DelimiterToken(source, q, IndexFrom(source, q + 3, '\n'))
            && scanner.current == IndexFrom(source, q + 3, '\n')
    {
      res := NO_TOKEN.(start := scanner.current - 1, line := scanner.line, offset := scanner.offset);
      ghost var source, q := scanner.source, scanner.current;
      var prev := scanner.Previous();
      for i := 0 to 3
        invariant Valid() && scanner.current == q + i
        invariant forall k :: q <= k < scanner.current ==> source[k] == '#'
      {
        var b := scanner.Read();
        if b.None? {
          return;
        }
        if b.value != '#' {
          assert i > 0;
          return;
        }
        scanner.Advance();
      }
      if prev != '\n' && prev != NUL {
        return;
      }
      while true
        invariant Valid() && q + 3 <= scanner.current
        invariant IndexFrom(source, q + 3, '\n') == IndexFrom(source, scanner.current, '\n')
        invariant res == DelimiterToken(source, q, scanner.current).(kind := IncompleteToken, end := 0)
        decreases |source| - scanner.current
      {
        var b := scanner.Read();
        if b.None? {
          return;
        }
        if b.value == '\n' {
          res := res.(end := scanner.current, kind := Delimiter);
          return;
        }
        ghost var at := scanner.current;
        if !IsSpace(b.value) {
          if res.payloadStart == 0 {
            res := res.(payloadStart := scanner.current);
          }
          if b.value == '\\' {
            res := res.(hasEscapes := true);
          }
          res := res.(payloadEnd := scanner.current + 1);
        }
        scanner.Advance();
        DelimiterGrows(source, q, at);
      }
    }

    method ParseScript() returns (r: Result<Token, LexError>)
      requires Valid()
      requires scanner.current < |scanner.source| && scanner.source[scanner.current] == '$'
      modifies this`unnamedScriptIdx, this`currentScriptName, scanner
      ensures Valid()
      ensures LexScript(scanner.source, old(scanner.current), old(unnamedScriptIdx)) ==
        if r.Failure? then Failure(r.error)
        else Success(Lexeme(r.value, scanner.current, None, unnamedScriptIdx > old(unnamedScriptIdx)))
      ensures old(unnamedScriptIdx) <= unnamedScriptIdx <= old(unnamedScriptIdx) + 1
    {
      ghost var source, p, n := scanner.source, scanner.current, NameEnd(scanner.source, scanner.current + 1);
      ghost var unnamed := unnamedScriptIdx;
      var res := NO_TOKEN.(start := scanner.current, payloadStart := -1, payloadEnd := -1,
                           end := scanner.current + 1, line := scanner.line, offset := scanner.offset);
      var err := Match('$');
      assert err.Success?;
      var name, nameErr := ParseScriptName();
      if |name| == 0 {
        name := "Unnamed_" + Decimal(unnamedScriptIdx);
        unnamedScriptIdx := unnamedScriptIdx + 1;
      }
      res := res.(name := name);
      currentScriptName := name;
      if nameErr.Failure? {
        currentScriptName := "";
        return Failure(nameErr.error);
      }
      r := ParseScriptBody(res, unnamedScriptIdx > unnamed);
      currentScriptName := "";
    }

    /** The second half of the source's parseScript: from the brace that opens the body. */
    method ParseScriptBody(head: Token, ghost numbered: bool) returns (r: Result<Token, LexError>)
      requires Valid()
      requires scanner.current < |scanner.source| && scanner.source[scanner.current] == '{'
      requires 0 <= head.start <= scanner.current
      requires head == NO_TOKEN.(name := head.name, start := head.start, payloadStart := -1, payloadEnd := -1,
        end := head.start + 1, line := LineAt(scanner.source, head.start),
          offset := OffsetAt(scanner.source, head.start))
      modifies scanner
      ensures Valid()
      ensures LexBody(scanner.source, head.start, old(scanner.current), head.name, numbered) ==
        if r.Failure? then Failure(r.error) else Success(Lexeme(r.value, scanner.current, None, numbered))
    {
      var res := head;
      var err := Match('{');
      assert err.Success?;
      res := res.(payloadStart := scanner.current);
      err := ParseLuaScript(0);
      if err.Failure? {
        return Failure(err.error);
      }
      err := Match('}');
      assert err.Success?;
      return Success(res.(end := scanner.current, payloadEnd := scanner.current - 1, kind := Script));
    }

    method ParseScriptName() returns (name: string, err: Outcome)
      requires Valid()
      modifies scanner
      ensures Valid()
      ensures scanner.current == NameEnd(scanner.source, old(scanner.current))
      ensures err ==
        if scanner.current == |scanner.source| then Failure(UnexpectedEof)
        else if scanner.source[scanner.current] == '\n' then Failure(NewlineInName)
        else Success(())
      ensures err.Success? ==> name == TrimSpace(scanner.source[old(scanner.current)..scanner.current])
    {
      var start := scanner.current;
      while true
        invariant Valid() && start <= scanner.current
        invariant NameEnd(scanner.source, start) == NameEnd(scanner.source, scanner.current)
        decreases |scanner.source| - scanner.current
      {
        var b := scanner.Read();
        if b.None? {
          return scanner.Slice(start, scanner.current), Failure(UnexpectedEof);
        }
        if b.value == '\n' {
          return scanner.Slice(start, scanner.current), Failure(NewlineInName);
        }
        if b.value != '{' {
          scanner.Advance();
          continue;
        }
        break;
      }
      return TrimSpace(scanner.Slice(start, scanner.current)), Success(());
    }
  }
}
