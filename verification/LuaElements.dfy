/** What the skipper takes for a string, a comment, a long bracket and a brace. */
module LuaElements {
  import opened Prelude
  import opened GoStrings
  import opened LuaAutomaton
  import opened LongBrackets
  import Lexing

  // Lua read element by element, without modes: a quoted string, a comment, a long bracket, or a single byte.
  // The automaton goes from one element to the next, and only braces that are elements of their own count.

  // ----- quoted strings -----

  /** How many backslashes there are directly before `q`, looking back no further than `p`. */
  function BackslashesBefore(source: string, p: nat, q: nat): nat
    requires p <= q <= |source|
    decreases q - p
  {
    if q == p || source[q - 1] != '\\' then 0 else BackslashesBefore(source, p, q - 1) + 1
  }

  /** A byte of a text is escaped behind an odd number of backslashes, too. */
  lemma {:induction false} EscapedIff(source: string, p: nat, q: nat)
    requires p <= q <= |source|
    ensures Lexing.Escaped(source, p, q) <==> BackslashesBefore(source, p, q) % 2 == 1
    decreases q - p
  {
    if p < q && source[q - 1] == '\\' {
      EscapedIff(source, p, q - 1);
    }
  }

  /** What ends a string, for better or worse: its quote or a newline, an even number of backslashes before it. */
  predicate EndsString(source: string, p: nat, q: nat, quote: char)
    requires p <= q < |source|
  {
    (source[q] == quote || source[q] == '\n') && BackslashesBefore(source, p, q) % 2 == 0
  }

  /** The first place from `q` on where that is so; the end of the source if there is none. */
  function StringStop(source: string, p: nat, q: nat, quote: char): (e: nat)
    requires p <= q <= |source|
    ensures q <= e <= |source| && (e < |source| ==> EndsString(source, p, e, quote))
    ensures forall k :: q <= k < e ==> !EndsString(source, p, k, quote)
    decreases |source| - q
  {
    if q == |source| || EndsString(source, p, q, quote) then q else StringStop(source, p, q + 1, quote)
  }

  /** Up to where it ends, a string is escaped exactly behind an odd number of backslashes. */
  lemma {:induction false} RunInString(source: string, p: nat, q: nat, quote: char, depth: nat)
    requires p <= q <= |source| && quote != '\\' && forall k :: p <= k < q ==> !EndsString(source, p, k, quote)
    ensures Run(source, p, Quoted(quote, false), depth) ==
      Run(source, q, Quoted(quote, BackslashesBefore(source, p, q) % 2 == 1), depth)
    decreases q - p
  {
    if p < q {
      RunInString(source, p, q - 1, quote, depth);
      assert !EndsString(source, p, q - 1, quote);
    }
  }

  /**
   A string ends behind the first of its quotes that is not escaped.  A raw newline before that, or none, is an
   error.
   */
  lemma StringEndsAtUnescapedQuote(source: string, p: nat, quote: char, depth: nat)
    requires p <= |source| && quote != '\\' && quote != '\n'
    ensures var e := StringStop(source, p, p, quote);
      Run(source, p, Quoted(quote, false), depth) ==
        if e < |source| && source[e] == quote then Run(source, e + 1, Code, depth) else Failure(UnclosedString)
  {
    RunInString(source, p, StringStop(source, p, p, quote), quote, depth);
  }

  // ----- comments to the end of the line -----

  /** A comment ends behind the first newline, and one that the source ends in is an error. */
  lemma {:induction false} LineCommentEndsAtNewline(source: string, p: nat, depth: nat)
    requires p <= |source|
    ensures var e := IndexFrom(source, p, '\n');
      Run(source, p, LineComment, depth) ==
        if e < |source| then Run(source, e + 1, Code, depth) else Failure(UnexpectedEof)
    decreases |source| - p
  {
    if p < |source| && source[p] != '\n' {
      LineCommentEndsAtNewline(source, p + 1, depth);
    }
  }

  // ----- long brackets -----

  /** An opening long bracket of this level stands at `q`. */
  predicate OpensAt(source: string, q: nat, level: nat) {
    && q + level + 2 <= |source|
    && source[q] == '['
    && (forall k :: q < k <= q + level ==> source[k] == '=')
    && source[q + level + 1] == '['
  }

  /** How many `=` there are from `q` on. */
  function EqualsFrom(source: string, q: nat): (n: nat)
    requires q <= |source|
    ensures q + n <= |source| && (forall k :: q <= k < q + n ==> source[k] == '=')
    ensures q + n < |source| ==> source[q + n] != '='
    decreases |source| - q
  {
    if q == |source| || source[q] != '=' then 0 else 1 + EqualsFrom(source, q + 1)
  }

  /** The level of the long bracket that opens at `q`, if one does. */
  function OpenLevel(source: string, q: nat): (r: Option<nat>)
    requires q <= |source|
    ensures r.Some? ==> OpensAt(source, q, r.value)
    ensures r.None? ==> forall level: nat :: !OpensAt(source, q, level)
  {
    if q == |source| || source[q] != '[' then None
    else
      var n := EqualsFrom(source, q + 1);
      if q + n + 1 < |source| && source[q + n + 1] == '[' then Some(n)
      else
        assert forall level: nat :: OpensAt(source, q, level) ==> level == n;
        None
  }

  lemma {:induction false} RunInOpener(source: string, q: nat, n: nat, comment: bool, depth: nat)
    requires q + n < |source| && forall k :: q < k <= q + n ==> source[k] == '='
    ensures Run(source, q + 1, Open(0, comment), depth) == Run(source, q + n + 1, Open(n, comment), depth)
    decreases n
  {
    if n > 0 {
      RunInOpener(source, q, n - 1, comment, depth);
    }
  }

  /** Text inside a long bracket that is opened at `q`, and the code behind it. */
  function BehindLongBracket(source: string, q: nat, level: nat): (r: Result<nat, LexError>)
    requires OpensAt(source, q, level)
    ensures r.Success? ==> q < r.value <= |source|
  {
    match SkipperCloser(source, q + level + 2, q + level + 2, level)
    case Some(e) => Success(e + level + 2)
    case None => Failure(UnexpectedEof)
  }

  /** The automaton behind an element, if it ends. */
  function Onward(source: string, end: Result<nat, LexError>, depth: nat): Result<nat, LexError>
    requires end.Success? ==> end.value <= |source|
  {
    if end.Success? then Run(source, end.value, Code, depth) else end
  }

  lemma RunFromOpener(source: string, q: nat, level: nat, comment: bool, depth: nat)
    requires OpensAt(source, q, level)
    ensures Run(source, q + 1, Open(0, comment), depth) == Onward(source, BehindLongBracket(source, q, level), depth)
  {
    RunInOpener(source, q, level, comment, depth);
    LongBracketEndsAtSkipperCloser(source, q + level + 2, level, depth);
  }

  // ----- elements -----

  function BehindString(source: string, q: nat): (r: Result<nat, LexError>)
    requires q < |source|
    ensures r.Success? ==> q < r.value <= |source|
  {
    var e := StringStop(source, q + 1, q + 1, source[q]);
    if e < |source| && source[e] == source[q] then Success(e + 1) else Failure(UnclosedString)
  }

  /** Behind a comment whose two dashes stand at `q`. */
  function BehindComment(source: string, q: nat): (r: Result<nat, LexError>)
    requires q + 2 <= |source|
    ensures r.Success? ==> q < r.value <= |source|
  {
    match OpenLevel(source, q + 2)
    case Some(level) => BehindLongBracket(source, q + 2, level)
    case None =>
      var e := IndexFrom(source, q + 2, '\n');
      if e < |source| then Success(e + 1) else Failure(UnexpectedEof)
  }

  predicate DashesAt(source: string, q: nat) {
    q + 1 < |source| && source[q] == '-' && source[q + 1] == '-'
  }

  /** Where the element that begins at `q` ends. */
  function ElementEnd(source: string, q: nat): (r: Result<nat, LexError>)
    requires q < |source|
    ensures r.Success? ==> q < r.value <= |source|
  {
    if source[q] == '"' || source[q] == '\'' then BehindString(source, q)
    else if DashesAt(source, q) then BehindComment(source, q)
    else
      match OpenLevel(source, q)
      case Some(level) => BehindLongBracket(source, q, level)
      case None => Success(q + 1)
  }

  // ----- from one element to the next -----

  lemma {:induction false} EqualsMeanNothing(source: string, q: nat, n: nat, depth: nat)
    requires q + n <= |source| && forall k :: q <= k < q + n ==> source[k] == '='
    ensures Run(source, q, Code, depth) == Run(source, q + n, Code, depth)
    ensures Run(source, q, LineComment, depth) == Run(source, q + n, LineComment, depth)
    decreases n
  {
    if n > 0 {
      EqualsMeanNothing(source, q + 1, n - 1, depth);
    }
  }

  /** A `[` that opens no long bracket is plain code, or plain comment. */
  lemma BrokenOpener(source: string, q: nat, comment: bool, depth: nat)
    requires q < |source| && source[q] == '[' && OpenLevel(source, q).None?
    ensures Run(source, q + 1, Open(0, comment), depth) ==
      Run(source, q + 1, if comment then LineComment else Code, depth)
  {
    var n := EqualsFrom(source, q + 1);
    if q + n < |source| {
      RunInOpener(source, q, n, comment, depth);
      EqualsMeanNothing(source, q + 1, n, depth);
      assert !OpensAt(source, q, n);
    }
  }

  lemma CommentRuns(source: string, q: nat, depth: nat)
    requires DashesAt(source, q)
    ensures Run(source, q, Code, depth) == Onward(source, BehindComment(source, q), depth)
  {
    assert Run(source, q, Code, depth) == Run(source, q + 1, Dash, depth) == Run(source, q + 2, DoubleDash, depth);
    LineCommentEndsAtNewline(source, q + 2, depth);
    if q + 2 < |source| && source[q + 2] == '[' {
      match OpenLevel(source, q + 2) {
        case Some(level) => RunFromOpener(source, q + 2, level, true, depth);
        case None => BrokenOpener(source, q + 2, true, depth);
      }
    }
  }

  lemma BracketRuns(source: string, q: nat, depth: nat)
    requires q < |source| && source[q] == '['
    ensures Run(source, q, Code, depth) == Onward(source, ElementEnd(source, q), depth)
  {
    match OpenLevel(source, q)
    case Some(level) => RunFromOpener(source, q, level, false, depth);
    case None => BrokenOpener(source, q, false, depth);
  }

  /** How far braces are open behind an element: only a brace that is an element changes it. */
  function DepthBehind(source: string, q: nat, depth: nat): nat
    requires q < |source| && !(source[q] == '}' && depth == 0)
  {
    if source[q] == '{' then depth + 1 else if source[q] == '}' then depth - 1 else depth
  }

  /** The automaton goes from one element to the next and counts the braces among them. */
  lemma RunsByElements(source: string, q: nat, depth: nat)
    requires q < |source| && !(source[q] == '}' && depth == 0)
    ensures Run(source, q, Code, depth) == Onward(source, ElementEnd(source, q), DepthBehind(source, q, depth))
  {
    if source[q] == '"' || source[q] == '\'' {
      StringEndsAtUnescapedQuote(source, q + 1, source[q], depth);
    } else if DashesAt(source, q) {
      CommentRuns(source, q, depth);
    } else if source[q] == '[' {
      BracketRuns(source, q, depth);
    }
  }

  // ----- where a script ends, by counting -----

  /** The places from `p` up to `q` at which elements begin, if one begins or the source ends at `q`. */
  function Elements(source: string, p: nat, q: nat): Option<seq<nat>>
    requires p <= q <= |source|
    decreases q - p
  {
    if p == q then Some([])
    else
      match ElementEnd(source, p)
      case Failure(_) => None
      case Success(e) =>
        if e > q then None
        else
          match Elements(source, e, q)
          case None => None
          case Some(places) => Some([p] + places)
  }

  function CountOf(source: string, places: seq<nat>, b: char): nat {
    if places == [] then 0
    else (if places[0] < |source| && source[places[0]] == b then 1 else 0) + CountOf(source, places[1..], b)
  }

  /** A `}` that is the `i`-th element closes one of the `{` before it or of `depth` more. */
  predicate HasPartner(source: string, places: seq<nat>, i: nat, depth: nat)
    requires i < |places|
  {
    places[i] < |source| && source[places[i]] == '}' ==>
      CountOf(source, places[..i], '}') < CountOf(source, places[..i], '{') + depth
  }

  /** Each `}` does, and none of the `{` is left open. */
  predicate Balanced(source: string, places: seq<nat>, depth: nat) {
    && CountOf(source, places, '{') + depth == CountOf(source, places, '}')
    && forall i :: 0 <= i < |places| ==> HasPartner(source, places, i, depth)
  }

  lemma CountFrom(source: string, p: nat, rest: seq<nat>, i: nat, b: char)
    requires i <= |rest|
    ensures CountOf(source, ([p] + rest)[..i + 1], b) ==
      CountOf(source, [p], b) + CountOf(source, rest[..i], b)
  {
    var all := ([p] + rest)[..i + 1];
    assert all[0] == p && all[1..] == rest[..i];
  }

  lemma PartnerOnward(source: string, p: nat, rest: seq<nat>, i: nat, depth: nat)
    requires p < |source| && !(source[p] == '}' && depth == 0) && i < |rest|
    ensures HasPartner(source, [p] + rest, i + 1, depth) <==>
      HasPartner(source, rest, i, DepthBehind(source, p, depth))
  {
    CountFrom(source, p, rest, i, '{');
    CountFrom(source, p, rest, i, '}');
  }

  lemma BalancedOnward(source: string, p: nat, rest: seq<nat>, depth: nat)
    requires p < |source| && !(source[p] == '}' && depth == 0)
    ensures Balanced(source, [p] + rest, depth) <==> Balanced(source, rest, DepthBehind(source, p, depth))
  {
    var all, depth' := [p] + rest, DepthBehind(source, p, depth);
    assert all[..|rest| + 1] == all && rest[..|rest|] == rest && all[..0] == [];
    CountFrom(source, p, rest, |rest|, '{');
    CountFrom(source, p, rest, |rest|, '}');
    assert HasPartner(source, all, 0, depth);
    forall i | 0 <= i < |rest|
      ensures HasPartner(source, all, i + 1, depth) <==> HasPartner(source, rest, i, depth')
    {
      PartnerOnward(source, p, rest, i, depth);
    }
    assert forall i :: 0 < i < |all| ==>
      (HasPartner(source, all, i, depth) <==> HasPartner(source, rest, i - 1, depth'));
  }

  lemma {:induction false} RunEndsIff(source: string, p: nat, q: nat, depth: nat)
    requires p <= q < |source|
    ensures Run(source, p, Code, depth) == Success(q) <==>
      source[q] == '}' && Elements(source, p, q).Some? && Balanced(source, Elements(source, p, q).value, depth)
    decreases q - p
  {
    if source[p] == '}' && depth == 0 {
      if p < q && Elements(source, p, q).Some? {
        var places := Elements(source, p, q).value;
        assert places[0] == p && places[..0] == [] && !HasPartner(source, places, 0, depth);
      }
    } else {
      RunsByElements(source, p, depth);
      var end := ElementEnd(source, p);
      if end.Success? && end.value <= q {
        RunEndsIff(source, end.value, q, DepthBehind(source, p, depth));
        if Elements(source, end.value, q).Some? {
          BalancedOnward(source, p, Elements(source, end.value, q).value, depth);
        }
      }
    }
  }

  /**
   A script that begins at `p` ends at the `}` at `q` if and only if reading strings, comments and long brackets as
   a whole leads there, as many `{` as `}` come before it, and none of those `}` closes the script itself.
   */
  lemma ScriptEndsIff(source: string, p: nat, q: nat)
    requires p <= q < |source|
    ensures Run(source, p, Code, 0) == Success(q) <==>
      source[q] == '}' && Elements(source, p, q).Some? && Balanced(source, Elements(source, p, q).value, 0)
  {
    RunEndsIff(source, p, q, 0);
  }
}
