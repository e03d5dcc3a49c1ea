/** Which tokens make which request (the parsing loop in internal/scenario/scenario.go). */
module Sections {
  import opened Prelude
  import opened LuaAutomaton
  import opened Lexing
  import opened Blueprints
  import opened TokenTiling

  // Here the requests of a file are described by its tokens alone: where a request begins, what is in it, and
  // which files are refused.  The loop that fills one request after another is proved to agree.

  // ----- where requests begin -----

  predicate IsContent(t: Token) {
    t.kind == Text || (t.kind == Script && !IsLifecycle(t.name))
  }

  /** Between the `i`-th token and the delimiter before it, or the file's start, there is content. */
  predicate ContentBefore(ts: seq<Token>, i: nat)
    requires i <= |ts|
  {
    i > 0 && ts[i - 1].kind != Delimiter && (IsContent(ts[i - 1]) || ContentBefore(ts, i - 1))
  }

  /** A delimiter begins a request if there is content between it and the delimiter before it, or the file's start. */
  predicate Starts(ts: seq<Token>, i: nat) {
    i < |ts| && ts[i].kind == Delimiter && ContentBefore(ts, i)
  }

  /** Where the last request begins. */
  function LastStart(ts: seq<Token>): (s: nat)
    ensures s <= |ts|
  {
    if ts == [] then 0 else if Starts(ts, |ts| - 1) then |ts| - 1 else LastStart(ts[..|ts| - 1])
  }

  lemma {:induction false} ContentBeforeIff(ts: seq<Token>, i: nat)
    requires i <= |ts|
    ensures ContentBefore(ts, i) <==>
      exists j :: 0 <= j < i && IsContent(ts[j]) && forall k :: j < k < i ==> ts[k].kind != Delimiter
  {
    if i > 0 {
      ContentBeforeIff(ts, i - 1);
      if ContentBefore(ts, i) && !IsContent(ts[i - 1]) {
        var j :| 0 <= j < i - 1 && IsContent(ts[j]) && forall k :: j < k < i - 1 ==> ts[k].kind != Delimiter;
        assert forall k :: j < k < i ==> ts[k].kind != Delimiter;
      }
    }
  }

  /** More tokens change nothing about the starts before them. */
  lemma {:induction false} ContentBeforeStays(ts: seq<Token>, more: seq<Token>, i: nat)
    requires i <= |ts|
    ensures ContentBefore(ts + more, i) <==> ContentBefore(ts, i)
  {
    if i > 0 {
      ContentBeforeStays(ts, more, i - 1);
    }
  }

  lemma {:induction false} LastStartIsLast(ts: seq<Token>)
    ensures LastStart(ts) == 0 || Starts(ts, LastStart(ts))
    ensures forall k :: LastStart(ts) < k < |ts| ==> !Starts(ts, k)
  {
    if ts != [] && !Starts(ts, |ts| - 1) {
      var front, t := ts[..|ts| - 1], ts[|ts| - 1];
      assert ts == front + [t];
      LastStartIsLast(front);
      forall k | 0 <= k < |front|
        ensures Starts(ts, k) <==> Starts(front, k)
      {
        ContentBeforeStays(front, [t], k);
      }
    }
  }

  // ----- what is in a request -----

  /** The first of these tokens that is a script of this name. */
  function ScriptNamed(ts: seq<Token>, name: string): Token {
    if ts == [] then NO_TOKEN
    else if ts[0].kind == Script && ts[0].name == name then ts[0]
    else ScriptNamed(ts[1..], name)
  }

  /** The texts and scripts that are sent, in their order. */
  function ContentIn(ts: seq<Token>): seq<Token> {
    if ts == [] then [] else (if IsContent(ts[0]) then [ts[0]] else []) + ContentIn(ts[1..])
  }

  /** What stands on the last delimiter line. */
  function NameIn(source: string, ts: seq<Token>): string {
    if ts == [] then ""
    else if ts[|ts| - 1].kind == Delimiter then Payload(source, ts[|ts| - 1])
    else NameIn(source, ts[..|ts| - 1])
  }

  function RequestIn(source: string, ts: seq<Token>): Blueprint {
    Blueprint(NameIn(source, ts), ContentIn(ts), ScriptNamed(ts, "PRE"), ScriptNamed(ts, "RETRY"),
              ScriptNamed(ts, "ASSERT"), ScriptNamed(ts, "POST"))
  }

  /** The requests before the last. */
  function Earlier(source: string, ts: seq<Token>): seq<Blueprint> {
    if ts == [] then []
    else
      var front := ts[..|ts| - 1];
      Earlier(source, front) + (if Starts(ts, |front|) then [RequestIn(source, front[LastStart(front)..])] else [])
  }

  // ----- which files are refused -----

  predicate InSlot(t: Token, slot: Slot) {
    t.kind == Script && t.name == SlotName(slot)
  }

  /** The script at `j` has the name of one before it in the same request. */
  predicate Duplicate(ts: seq<Token>, j: nat, slot: Slot) {
    j < |ts| && InSlot(ts[j], slot) && exists i :: LastStart(ts[..j]) <= i < j && InSlot(ts[i], slot)
  }

  ghost predicate NoDuplicates(ts: seq<Token>) {
    forall j: nat, slot :: !Duplicate(ts, j, slot)
  }

  ghost predicate FirstDuplicate(ts: seq<Token>, j: nat, slot: Slot) {
    Duplicate(ts, j, slot) && forall i: nat, other :: i < j ==> !Duplicate(ts, i, other)
  }

  /** No content follows the last start of a request. */
  predicate EndsEmpty(ts: seq<Token>) {
    forall i :: LastStart(ts) <= i < |ts| ==> !IsContent(ts[i])
  }

  // ----- the loop, token by token -----

  function Fold(source: string, ts: seq<Token>): Result<Requests, ParseError> {
    if ts == [] then Success(Requests([], EMPTY_BLUEPRINT))
    else
      match Fold(source, ts[..|ts| - 1])
      case Failure(e) => Failure(e)
      case Success(rs) => Absorb(source, rs, ts[|ts| - 1])
  }

  lemma LastStartOneMore(ts: seq<Token>, t: Token)
    ensures LastStart(ts + [t]) == if Starts(ts + [t], |ts|) then |ts| else LastStart(ts)
  {
    assert (ts + [t])[..|ts|] == ts;
  }

  lemma {:induction false} ContentOneMore(ts: seq<Token>, t: Token)
    ensures ContentIn(ts + [t]) == ContentIn(ts) + (if IsContent(t) then [t] else [])
  {
    if ts != [] {
      ContentOneMore(ts[1..], t);
      assert (ts + [t])[1..] == ts[1..] + [t];
    }
  }

  lemma TailGrows(ts: seq<Token>, t: Token, s: nat)
    requires s <= |ts|
    ensures (ts + [t])[s..] == ts[s..] + [t]
  {
  }

  lemma SectionGrows(ts: seq<Token>, t: Token)
    requires !Starts(ts + [t], |ts|)
    ensures (ts + [t])[LastStart(ts + [t])..] == ts[LastStart(ts)..] + [t]
  {
    LastStartOneMore(ts, t);
    TailGrows(ts, t, LastStart(ts));
  }

  lemma {:induction false} HasContentIff(ts: seq<Token>, s: nat)
    requires s <= |ts|
    ensures ContentIn(ts[s..]) != [] <==> exists i :: s <= i < |ts| && IsContent(ts[i])
    decreases |ts| - s
  {
    if s < |ts| {
      assert ts[s..][1..] == ts[s + 1..] && ts[s..][0] == ts[s];
      HasContentIff(ts, s + 1);
    }
  }

  /** A delimiter begins a request exactly if the one before it has content. */
  ghost predicate StartNeedsContent(ts: seq<Token>) {
    ContentBefore(ts, |ts|) <==> ContentIn(ts[LastStart(ts)..]) != []
  }

  lemma StartsStep(ts: seq<Token>, t: Token)
    requires StartNeedsContent(ts)
    ensures StartNeedsContent(ts + [t])
  {
    ContentBeforeStays(ts, [t], |ts|);
    if Starts(ts + [t], |ts|) {
      LastStartOneMore(ts, t);
      assert (ts + [t])[|ts|..] == [t] && [t][1..] == [];
    } else {
      SectionGrows(ts, t);
      ContentOneMore(ts[LastStart(ts)..], t);
    }
  }

  lemma {:induction false} StartsIff(ts: seq<Token>)
    ensures StartNeedsContent(ts)
    decreases |ts|
  {
    if ts != [] {
      assert ts == ts[..|ts| - 1] + [ts[|ts| - 1]];
      StartsIff(ts[..|ts| - 1]);
      StartsStep(ts[..|ts| - 1], ts[|ts| - 1]);
    }
  }

  predicate HasScript(ts: seq<Token>, name: string) {
    ScriptNamed(ts, name).kind != IncompleteToken
  }

  lemma {:induction false} HasScriptIff(ts: seq<Token>, slot: Slot, s: nat)
    requires s <= |ts|
    ensures HasScript(ts[s..], SlotName(slot)) <==> exists i :: s <= i < |ts| && InSlot(ts[i], slot)
    decreases |ts| - s
  {
    if s < |ts| {
      assert ts[s..][1..] == ts[s + 1..];
      HasScriptIff(ts, slot, s + 1);
      assert InSlot(ts[s..][0], slot) <==> InSlot(ts[s], slot);
    }
  }

  lemma {:induction false} ScriptNamedOneMore(ts: seq<Token>, t: Token, name: string)
    ensures ScriptNamed(ts + [t], name) ==
      if !HasScript(ts, name) && t.kind == Script && t.name == name then t else ScriptNamed(ts, name)
  {
    if ts != [] {
      ScriptNamedOneMore(ts[1..], t, name);
      assert (ts + [t])[1..] == ts[1..] + [t];
    }
  }

  lemma NameOneMore(source: string, ts: seq<Token>, t: Token)
    ensures NameIn(source, ts + [t]) == if t.kind == Delimiter then Payload(source, t) else NameIn(source, ts)
  {
    assert (ts + [t])[..|ts|] == ts;
  }

  lemma RequestOneMore(source: string, ts: seq<Token>, t: Token)
    requires t.kind == Script && IsLifecycle(t.name) ==> !HasScript(ts, t.name)
    ensures RequestIn(source, ts + [t]) ==
      var b := RequestIn(source, ts);
      if IsContent(t) then b.(content := b.content + [t])
      else if t.kind == Delimiter then b.(name := Payload(source, t))
      else if t.kind == Script then SetScriptIn(b, t).value
      else b
  {
    NameOneMore(source, ts, t);
    ContentOneMore(ts, t);
    ScriptNamedOneMore(ts, t, "PRE");
    ScriptNamedOneMore(ts, t, "RETRY");
    ScriptNamedOneMore(ts, t, "ASSERT");
    ScriptNamedOneMore(ts, t, "POST");
  }

  // ----- the loop agrees -----

  lemma DuplicateIff(ts: seq<Token>, t: Token, slot: Slot)
    ensures Duplicate(ts + [t], |ts|, slot) <==> InSlot(t, slot) && HasScript(ts[LastStart(ts)..], SlotName(slot))
  {
    assert (ts + [t])[..|ts|] == ts;
    assert forall i :: 0 <= i < |ts| ==> (ts + [t])[i] == ts[i];
    HasScriptIff(ts, slot, LastStart(ts));
  }

  lemma EarlierDuplicates(ts: seq<Token>, t: Token, j: nat, slot: Slot)
    requires j < |ts|
    ensures Duplicate(ts + [t], j, slot) <==> Duplicate(ts, j, slot)
  {
    assert (ts + [t])[..j] == ts[..j];
  }

  /** What the loop has after some tokens. */
  ghost predicate FoldedTo(source: string, ts: seq<Token>, r: Result<Requests, ParseError>) {
    match r
    case Success(rs) =>
      && NoDuplicates(ts)
      && rs.current == RequestIn(source, ts[LastStart(ts)..]) && rs.done == Earlier(source, ts)
    case Failure(e) => exists j: nat, slot :: FirstDuplicate(ts, j, slot) && e == DefinedTwice(slot)
  }

  lemma FailureStays(source: string, ts: seq<Token>, t: Token, e: ParseError)
    requires FoldedTo(source, ts, Failure(e))
    ensures FoldedTo(source, ts + [t], Failure(e))
  {
    var j: nat, slot :| FirstDuplicate(ts, j, slot) && e == DefinedTwice(slot);
    forall i: nat, other | i <= j
      ensures Duplicate(ts + [t], i, other) <==> Duplicate(ts, i, other)
    {
      EarlierDuplicates(ts, t, i, other);
    }
    assert FirstDuplicate(ts + [t], j, slot);
  }

  lemma NoneOfSlot(ts: seq<Token>, t: Token)
    requires NoDuplicates(ts) && forall slot :: !Duplicate(ts + [t], |ts|, slot)
    ensures NoDuplicates(ts + [t])
  {
    forall j: nat, slot
      ensures !Duplicate(ts + [t], j, slot)
    {
      if j < |ts| {
        EarlierDuplicates(ts, t, j, slot);
      }
    }
  }

  lemma FirstOfSlot(ts: seq<Token>, t: Token, slot: Slot)
    requires NoDuplicates(ts) && Duplicate(ts + [t], |ts|, slot)
    ensures FirstDuplicate(ts + [t], |ts|, slot)
  {
    forall i: nat, other | i < |ts|
      ensures !Duplicate(ts + [t], i, other)
    {
      EarlierDuplicates(ts, t, i, other);
    }
  }

  lemma EarlierOneMore(source: string, ts: seq<Token>, t: Token)
    ensures Earlier(source, ts + [t]) ==
      Earlier(source, ts) + (if Starts(ts + [t], |ts|) then [RequestIn(source, ts[LastStart(ts)..])] else [])
  {
    assert (ts + [t])[..|ts|] == ts;
  }

  lemma DelimiterFolds(source: string, ts: seq<Token>, t: Token, rs: Requests)
    requires FoldedTo(source, ts, Success(rs)) && t.kind == Delimiter
    ensures FoldedTo(source, ts + [t], Absorb(source, rs, t))
  {
    StartsIff(ts);
    ContentBeforeStays(ts, [t], |ts|);
    EarlierOneMore(source, ts, t);
    NoneOfSlot(ts, t);
    if Starts(ts + [t], |ts|) {
      LastStartOneMore(ts, t);
      assert (ts + [t])[|ts|..] == [] + [t];
      RequestOneMore(source, [], t);
    } else {
      SectionGrows(ts, t);
      RequestOneMore(source, ts[LastStart(ts)..], t);
    }
  }

  /** A second script of one name is refused. */
  lemma TakenSlotFolds(source: string, ts: seq<Token>, t: Token, rs: Requests, slot: Slot)
    requires FoldedTo(source, ts, Success(rs)) && InSlot(t, slot) && HasScript(ts[LastStart(ts)..], SlotName(slot))
    ensures FoldedTo(source, ts + [t], Absorb(source, rs, t))
  {
    DuplicateIff(ts, t, slot);
    FirstOfSlot(ts, t, slot);
  }

  lemma FreeSlotIsNone(ts: seq<Token>, t: Token, slot: Slot)
    requires NoDuplicates(ts) && InSlot(t, slot) && !HasScript(ts[LastStart(ts)..], SlotName(slot))
    ensures NoDuplicates(ts + [t])
  {
    forall other
      ensures !Duplicate(ts + [t], |ts|, other)
    {
      DuplicateIff(ts, t, other);
    }
    NoneOfSlot(ts, t);
  }

  lemma FreeSlotFolds(source: string, ts: seq<Token>, t: Token, rs: Requests, slot: Slot)
    requires FoldedTo(source, ts, Success(rs)) && InSlot(t, slot) && !HasScript(ts[LastStart(ts)..], SlotName(slot))
    ensures FoldedTo(source, ts + [t], Absorb(source, rs, t))
  {
    FreeSlotIsNone(ts, t, slot);
    EarlierOneMore(source, ts, t);
    SectionGrows(ts, t);
    RequestOneMore(source, ts[LastStart(ts)..], t);
  }

  lemma OtherFolds(source: string, ts: seq<Token>, t: Token, rs: Requests)
    requires FoldedTo(source, ts, Success(rs)) && t.kind != Delimiter && !(t.kind == Script && IsLifecycle(t.name))
    ensures FoldedTo(source, ts + [t], Absorb(source, rs, t))
  {
    EarlierOneMore(source, ts, t);
    SectionGrows(ts, t);
    NoneOfSlot(ts, t);
    RequestOneMore(source, ts[LastStart(ts)..], t);
  }

  lemma {:induction false} FoldIs(source: string, ts: seq<Token>)
    ensures FoldedTo(source, ts, Fold(source, ts))
  {
    if ts == [] {
      assert ts[LastStart(ts)..] == [];
    } else {
      var front, t := ts[..|ts| - 1], ts[|ts| - 1];
      assert ts == front + [t];
      FoldIs(source, front);
      match Fold(source, front) {
        case Failure(e) => FailureStays(source, front, t, e);
        case Success(rs) =>
          if t.kind == Delimiter {
            DelimiterFolds(source, front, t, rs);
          } else if slot :| InSlot(t, slot) {
            if HasScript(front[LastStart(front)..], SlotName(slot)) {
              TakenSlotFolds(source, front, t, rs, slot);
            } else {
              FreeSlotFolds(source, front, t, rs, slot);
            }
          } else {
            assert !InSlot(t, PreScript) && !InSlot(t, RetryScript);
            assert !InSlot(t, AssertScript) && !InSlot(t, PostScript);
            OtherFolds(source, front, t, rs);
          }
      }
    }
  }

  lemma {:induction false} FailureOnward(source: string, ts: seq<Token>, more: seq<Token>)
    requires Fold(source, ts).Failure?
    ensures Fold(source, ts + more) == Fold(source, ts)
    decreases |more|
  {
    if more == [] {
      assert ts + more == ts;
    } else {
      assert (ts + more)[..|ts + more| - 1] == ts + more[..|more| - 1];
      FailureOnward(source, ts, more[..|more| - 1]);
    }
  }

  /** The error that reading tokens stops at, if it does. */
  function LexFailure(source: string, c: Cursor): Option<LexError>
    requires CursorIn(source, c)
    decreases |source| - c.at, c.pending.Some?
  {
    match NextToken(source, c)
    case Failure(e) => Some(e)
    case Success((t, next)) => if t.kind == EOF then None else LexFailure(source, next)
  }

  function AtTheEnd(folded: Result<Requests, ParseError>, failure: Option<LexError>)
    : Result<seq<Blueprint>, ParseError>
  {
    match folded
    case Failure(e) => Failure(e)
    case Success(rs) => if failure.Some? then Failure(BadToken(failure.value)) else Finish(rs)
  }

  lemma FoldOneMore(source: string, ts: seq<Token>, t: Token, rs: Requests)
    requires Fold(source, ts) == Success(rs)
    ensures Fold(source, ts + [t]) == Absorb(source, rs, t)
  {
    assert (ts + [t])[..|ts|] == ts;
  }

  predicate GoesOn(source: string, c: Cursor)
    requires CursorIn(source, c)
  {
    NextToken(source, c).Success? && NextToken(source, c).value.0.kind != EOF
  }

  /** One token that the parsing loop reads before the end of the file. */
  lemma OneTurn(source: string, c: Cursor, rs: Requests) returns (t: Token, next: Cursor)
    requires CursorIn(source, c) && GoesOn(source, c)
    ensures CursorIn(source, next)
    ensures next.at > c.at || (next.at == c.at && c.pending.Some? && next.pending.None?)
    ensures Tokens(source, c) == [t] + Tokens(source, next) && LexFailure(source, c) == LexFailure(source, next)
    ensures var r := Absorb(source, rs, t);
      ParseFrom(source, c, rs) == if r.Failure? then Failure(r.error) else ParseFrom(source, next, r.value)
  {
    t, next := NextToken(source, c).value.0, NextToken(source, c).value.1;
  }

  /** What the tokens do to the requests so far. */
  function FoldFrom(source: string, rs: Requests, ts: seq<Token>): Result<Requests, ParseError>
    decreases |ts|
  {
    if ts == [] then Success(rs)
    else
      match Absorb(source, rs, ts[0])
      case Failure(e) => Failure(e)
      case Success(absorbed) => FoldFrom(source, absorbed, ts[1..])
  }

  lemma {:induction false} FoldFromIsFold(source: string, before: seq<Token>, rs: Requests, ts: seq<Token>)
    requires Fold(source, before) == Success(rs)
    ensures Fold(source, before + ts) == FoldFrom(source, rs, ts)
    decreases |ts|
  {
    if ts == [] {
      assert before + ts == before;
    } else {
      FoldOneMore(source, before, ts[0], rs);
      assert before + ts == before + [ts[0]] + ts[1..];
      if Absorb(source, rs, ts[0]).Failure? {
        FailureOnward(source, before + [ts[0]], ts[1..]);
      } else {
        FoldFromIsFold(source, before + [ts[0]], Absorb(source, rs, ts[0]).value, ts[1..]);
      }
    }
  }

  lemma LastTurn(source: string, c: Cursor, rs: Requests)
    requires CursorIn(source, c) && !GoesOn(source, c)
    ensures ParseFrom(source, c, rs) == AtTheEnd(FoldFrom(source, rs, Tokens(source, c)), LexFailure(source, c))
  {
    var r := NextToken(source, c);
    if r.Success? {
      assert Tokens(source, c)[1..] == [];
    }
  }

  lemma FoldFromHead(source: string, rs: Requests, t: Token, ts: seq<Token>)
    ensures var r := Absorb(source, rs, t);
      FoldFrom(source, rs, [t] + ts) == if r.Failure? then Failure(r.error) else FoldFrom(source, r.value, ts)
  {
    assert ([t] + ts)[1..] == ts;
  }

  lemma {:induction false} ParseIsFold(source: string, c: Cursor, rs: Requests)
    requires CursorIn(source, c)
    ensures ParseFrom(source, c, rs) == AtTheEnd(FoldFrom(source, rs, Tokens(source, c)), LexFailure(source, c))
    decreases |source| - c.at, c.pending.Some?
  {
    if !GoesOn(source, c) {
      LastTurn(source, c, rs);
    } else {
      var t, next := OneTurn(source, c, rs);
      FoldFromHead(source, rs, t, Tokens(source, next));
      var r := Absorb(source, rs, t);
      if r.Success? {
        ParseIsFold(source, next, r.value);
      }
    }
  }

  // ----- the requests of a file -----

  /** The places at which requests begin: the first token, and each delimiter that begins one. */
  function Begins(ts: seq<Token>): (places: seq<nat>)
    ensures places != [] && forall k :: 0 <= k < |places| ==> places[k] <= |ts|
  {
    if ts == [] then [0]
    else Begins(ts[..|ts| - 1]) + (if Starts(ts, |ts| - 1) then [|ts| - 1] else [])
  }

  function EndOf(ts: seq<Token>, k: nat): (e: nat)
    requires k < |Begins(ts)|
    ensures e <= |ts|
  {
    if k + 1 < |Begins(ts)| then Begins(ts)[k + 1] else |ts|
  }

  lemma {:induction false} BeginsAreStarts(ts: seq<Token>)
    ensures forall s :: s in Begins(ts) <==> s == 0 || Starts(ts, s)
    ensures Begins(ts)[|Begins(ts)| - 1] == LastStart(ts)
    decreases |ts|
  {
    if ts != [] {
      var front, t := ts[..|ts| - 1], ts[|ts| - 1];
      assert ts == front + [t];
      BeginsAreStarts(front);
      forall s | 0 <= s < |front|
        ensures Starts(ts, s) <==> Starts(front, s)
      {
        ContentBeforeStays(front, [t], s);
      }
    }
  }

  lemma {:induction false} BeginsRise(ts: seq<Token>)
    ensures forall i, k :: 0 <= i < k < |Begins(ts)| ==> Begins(ts)[i] < Begins(ts)[k]
    ensures ts != [] ==> forall k :: 0 <= k < |Begins(ts)| ==> Begins(ts)[k] < |ts|
    decreases |ts|
  {
    if ts != [] {
      BeginsRise(ts[..|ts| - 1]);
      assert ContentBefore(ts, |ts| - 1) ==> |ts| > 1;
    }
  }

  lemma {:induction false} EarlierCount(source: string, ts: seq<Token>)
    ensures |Earlier(source, ts)| == |Begins(ts)| - 1
    decreases |ts|
  {
    if ts != [] {
      EarlierCount(source, ts[..|ts| - 1]);
    }
  }

  lemma {:induction false} EarlierOnes(source: string, ts: seq<Token>, k: nat)
    requires k + 1 < |Begins(ts)|
    ensures |Earlier(source, ts)| == |Begins(ts)| - 1 && Begins(ts)[k] <= Begins(ts)[k + 1] <= |ts|
    ensures Earlier(source, ts)[k] == RequestIn(source, ts[Begins(ts)[k]..Begins(ts)[k + 1]])
    decreases |ts|
  {
    BeginsRise(ts);
    var front := ts[..|ts| - 1];
    BeginsAreStarts(front);
    if k + 1 < |Begins(front)| {
      EarlierOnes(source, front, k);
      assert front[Begins(front)[k]..Begins(front)[k + 1]] == ts[Begins(ts)[k]..Begins(ts)[k + 1]];
    } else {
      EarlierCount(source, front);
      assert front[LastStart(front)..] == ts[Begins(ts)[k]..Begins(ts)[k + 1]];
    }
  }

  /** The `k`-th request: it is made of the tokens from where it begins to where the next one does. */
  predicate IsRequest(source: string, ts: seq<Token>, k: nat, b: Blueprint)
    requires k < |Begins(ts)|
  {
    Begins(ts)[k] <= EndOf(ts, k) && b == RequestIn(source, ts[Begins(ts)[k]..EndOf(ts, k)])
  }

  predicate AreRequestsIn(source: string, ts: seq<Token>, bs: seq<Blueprint>) {
    |bs| == |Begins(ts)| && forall k :: 0 <= k < |bs| ==> IsRequest(source, ts, k, bs[k])
  }

  lemma AllRequests(source: string, ts: seq<Token>, rs: Requests)
    requires rs.current == RequestIn(source, ts[LastStart(ts)..]) && rs.done == Earlier(source, ts)
    ensures AreRequestsIn(source, ts, rs.done + [rs.current])
  {
    var bs, n := rs.done + [rs.current], |Begins(ts)| - 1;
    EarlierCount(source, ts);
    BeginsAreStarts(ts);
    assert ts[LastStart(ts)..] == ts[LastStart(ts)..|ts|];
    forall k | 0 <= k < n
      ensures IsRequest(source, ts, k, bs[k])
    {
      EarlierOnes(source, ts, k);
    }
  }

  lemma FileIsFold(source: string)
    ensures var ts := Tokens(source, Start(source));
      ParseFile(source) == AtTheEnd(Fold(source, ts), LexFailure(source, Start(source)))
  {
    var ts := Tokens(source, Start(source));
    ParseIsFold(source, Start(source), Requests([], EMPTY_BLUEPRINT));
    FoldFromIsFold(source, [], Requests([], EMPTY_BLUEPRINT), ts);
    assert [] + ts == ts;
  }

  /**
   What parsing a file gives goes by its tokens.  The first script whose name was there before in the same request
   is an error, and comes before any error in reading tokens; then a last request without content is one.  A file
   without these is parsed, and its requests are what stands between the places where they begin.
   */
  lemma FileIsItsTokens(source: string)
    ensures var ts, failure := Tokens(source, Start(source)), LexFailure(source, Start(source));
      match ParseFile(source)
      case Success(bs) => NoDuplicates(ts) && failure.None? && !EndsEmpty(ts) && AreRequestsIn(source, ts, bs)
      case Failure(DefinedTwice(slot)) => exists j: nat :: FirstDuplicate(ts, j, slot)
      case Failure(BadToken(e)) => NoDuplicates(ts) && failure == Some(e)
      case Failure(EmptyRequest) => NoDuplicates(ts) && failure.None? && EndsEmpty(ts)
  {
    var ts := Tokens(source, Start(source));
    FileIsFold(source);
    FoldIs(source, ts);
    HasContentIff(ts, LastStart(ts));
    var r := Fold(source, ts);
    if r.Success? {
      AllRequests(source, ts, r.value);
    }
  }
}
