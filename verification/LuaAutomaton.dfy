/**
 The flat automaton behind the skipping of embedded Lua (internal/scenario/scenario-parser.go).
 */
module LuaAutomaton {
  import opened Prelude

  // The repository finds the end of an embedded script with a family of mutually recursive methods.
  // Here is what that family computes, as one left-to-right automaton over (mode, brace depth).  The
  // methods are proved against it in ScenarioParser.dfy.

  datatype LexError =
    | UnexpectedEof
    | UnexpectedByte
    | UnclosedString
    | NewlineInName
    | EofAfterEscape

  datatype Mode =
    | Code
    | Dash                               // one '-' read
    | DoubleDash                         // "--" read, a long comment may still open
    | LineComment
    | Open(level: nat, comment: bool)    // '[' and `level` times '=' read
    | Quoted(quote: char, escaped: bool)
    | Long(level: nat)                   // inside a long bracket of this level
    | Close(level: nat, seen: nat)       // inside it, ']' and `seen` times '=' read

  datatype Move = Go(mode: Mode, depth: nat) | Halt | Reject

  function InCode(b: char, depth: nat): Move {
    match b
    case '-' => Go(Dash, depth)
    case '"' => Go(Quoted('"', false), depth)
    case '\'' => Go(Quoted('\'', false), depth)
    case '[' => Go(Open(0, false), depth)
    case '{' => Go(Code, depth + 1)
    case '}' => if depth == 0 then Halt else Go(Code, depth - 1)
    case _ => Go(Code, depth)
  }

  function InLineComment(b: char, depth: nat): Move {
    Go(if b == '\n' then Code else LineComment, depth)
  }

  function Step(mode: Mode, depth: nat, b: char): Move {
    match mode
    case Code => InCode(b, depth)
    case Dash => if b == '-' then Go(DoubleDash, depth) else InCode(b, depth)
    case DoubleDash => if b == '[' then Go(Open(0, true), depth) else InLineComment(b, depth)
    case LineComment => InLineComment(b, depth)
    case Open(level, comment) =>
      if b == '[' then Go(Long(level), depth)
      else if b == '=' then Go(Open(level + 1, comment), depth)
      else if comment then InLineComment(b, depth)
      else InCode(b, depth)
    case Quoted(quote, escaped) =>
      if escaped then Go(Quoted(quote, false), depth)
      else if b == '\n' then Reject
      else if b == quote then Go(Code, depth)
      else Go(Quoted(quote, b == '\\'), depth)
    case Long(level) => Go(if b == ']' then Close(level, 0) else Long(level), depth)
    case Close(level, seen) =>
      if b == ']' then Go(if seen == level then Code else Long(level), depth)
      else if b == '=' then Go(Close(level, seen + 1), depth)
      else Go(Long(level), depth)
  }

  /** Runs the automaton from `p`; the result is the position of the brace it halts on. */
  function Run(source: string, p: nat, mode: Mode, depth: nat): (r: Result<nat, LexError>)
    requires p <= |source|
    ensures r.Success? ==> p <= r.value < |source| && source[r.value] == '}'
    decreases |source| - p
  {
    if p == |source| then
      Failure(if mode.Quoted? then UnclosedString else UnexpectedEof)
    else
      match Step(mode, depth, source[p])
      case Halt => Success(p)
      case Reject => Failure(UnclosedString)
      case Go(m, d) => Run(source, p + 1, m, d)
  }

  /** What may be put between the braces of a segment: the brace written after it closes it, whatever follows. */
  ghost predicate Acceptable(body: string) {
    forall rest: string :: Run(body + "}" + rest, 0, Code, 0) == Success(|body|)
  }

  /** The automaton reads nothing past the brace it halts on, and it does not matter where the text stands. */
  lemma {:induction false} RunIsPrefixStable(source: string, p: nat, other: string, o: nat, mode: Mode, depth: nat)
    requires p <= |source| && Run(source, p, mode, depth).Success?
    requires var q := Run(source, p, mode, depth).value;
      o + (q + 1 - p) <= |other| && other[o..o + (q + 1 - p)] == source[p..q + 1]
    ensures Run(other, o, mode, depth) == Success(o + Run(source, p, mode, depth).value - p)
    decreases |source| - p
  {
    var q := Run(source, p, mode, depth).value;
    assert other[o] == other[o..o + (q + 1 - p)][0] == source[p..q + 1][0] == source[p];
    var move := Step(mode, depth, source[p]);
    if move.Go? {
      assert other[o + 1..o + 1 + (q + 1 - (p + 1))] == other[o..o + (q + 1 - p)][1..];
      assert source[p + 1..q + 1] == source[p..q + 1][1..];
      RunIsPrefixStable(source, p + 1, other, o + 1, move.mode, move.depth);
    }
  }

  /** Acceptability is decided by one run. */
  lemma {:induction false} AcceptableIff(body: string)
    ensures Acceptable(body) <==> Run(body + "}", 0, Code, 0) == Success(|body|)
  {
    var closed := body + "}";
    if Acceptable(body) {
      assert closed + "" == closed;
    }
    if Run(closed, 0, Code, 0) == Success(|body|) {
      forall rest: string
        ensures Run(closed + rest, 0, Code, 0) == Success(|body|)
      {
        assert (closed + rest)[0..|body| + 1] == closed[0..|body| + 1];
        RunIsPrefixStable(closed, 0, closed + rest, 0, Code, 0);
      }
    }
  }

  /** The state after the bytes from `p` up to `q`, `None` once the automaton has stopped. */
  function StateAt(source: string, p: nat, q: nat): Option<(Mode, nat)>
    requires p <= q <= |source|
    decreases q - p
  {
    if q == p then Some((Code, 0))
    else
      match StateAt(source, p, q - 1)
      case None => None
      case Some((mode, depth)) =>
        match Step(mode, depth, source[q - 1])
        case Go(m, d) => Some((m, d))
        case _ => None
  }

  /** A brace that no string, comment or long bracket protects and that no opening brace of the script matches. */
  predicate UnprotectedUnmatched(source: string, p: nat, q: nat)
    requires p <= q < |source|
  {
    && source[q] == '}'
    && StateAt(source, p, q).Some?
    && var (mode, depth) := StateAt(source, p, q).value;
       depth == 0 && (mode == Code || mode == Dash || (mode.Open? && !mode.comment))
  }

  /** Running from the start is running on from any state on the way. */
  lemma {:induction false} RunFromStateAt(source: string, p: nat, q: nat)
    requires p <= q <= |source|
    ensures StateAt(source, p, q).Some? ==>
      var (mode, depth) := StateAt(source, p, q).value;
      Run(source, p, Code, 0) == Run(source, q, mode, depth)
    decreases q - p
  {
    if p < q {
      RunFromStateAt(source, p, q - 1);
    }
  }

  lemma {:induction false} RunReaches(source: string, p: nat, k: nat, q: nat)
    requires p <= k <= q < |source| && Run(source, p, Code, 0) == Success(q) && StateAt(source, p, k).Some?
    ensures StateAt(source, p, q).Some?
    decreases q - k
  {
    if k < q {
      RunFromStateAt(source, p, k);
      RunReaches(source, p, k + 1, q);
    }
  }

  /** Skipping succeeds exactly when such a brace exists, and stops on the only one there is. */
  lemma RunFindsTheUnmatchedBrace(source: string, p: nat, q: nat)
    requires p <= q < |source|
    ensures Run(source, p, Code, 0) == Success(q) <==> UnprotectedUnmatched(source, p, q)
  {
    RunFromStateAt(source, p, q);
    if UnprotectedUnmatched(source, p, q) {
      var (mode, depth) := StateAt(source, p, q).value;
      assert Step(mode, depth, '}') == Halt;
    }
    if Run(source, p, Code, 0) == Success(q) {
      RunReaches(source, p, p, q);
      RunFromStateAt(source, p, q);
    }
  }
}
