/**
 Where a long bracket ends.
 */
module LongBrackets {
  import opened Prelude
  import opened LuaAutomaton

  // Section 2.1 of the Lua 5.1 Reference Manual closes a long bracket of level n at the first `]`, n
  // times `=`, `]`.  The skipper looks at the candidates one after another and swallows the last `]` of
  // a candidate that does not fit, so two candidates that share a `]` are never both looked at.  This
  // module says exactly which closers it sees, and when that is the manual's one.

  /** A closing long bracket of this level stands at `q`. */
  predicate ClosesAt(source: string, q: nat, level: nat) {
    && q + level + 2 <= |source|
    && source[q] == ']'
    && (forall k :: q < k <= q + level ==> source[k] == '=')
    && source[q + level + 1] == ']'
  }

  /** How many `]` there are among the `]` and `=` directly before `q`, looking back no further than `p`. */
  function BracketsBefore(source: string, p: nat, q: nat): nat
    requires p <= q <= |source|
    decreases q - p
  {
    if q == p || source[q - 1] !in {']', '='} then 0
    else BracketsBefore(source, p, q - 1) + (if source[q - 1] == ']' then 1 else 0)
  }

  /** How many `=` there are directly before `q`. */
  function EqualsBefore(source: string, p: nat, q: nat): (n: nat)
    requires p <= q <= |source|
    ensures n <= q - p
    ensures forall k :: q - n <= k < q ==> source[k] == '='
    ensures n < q - p ==> source[q - n - 1] != '='
    decreases q - p
  {
    if q == p || source[q - 1] != '=' then 0 else EqualsBefore(source, p, q - 1) + 1
  }

  /** A closer the skipper sees: an even number of `]` of the same run stand before it. */
  predicate Seen(source: string, p: nat, q: nat, level: nat) {
    p <= q && ClosesAt(source, q, level) && BracketsBefore(source, p, q) % 2 == 0
  }

  /** The closer the manual prescribes, looking from `q` on: the first one. */
  function ManualCloser(source: string, q: nat, level: nat): (r: Option<nat>)
    requires q <= |source|
    ensures r.Some? ==> q <= r.value && ClosesAt(source, r.value, level)
    ensures forall k :: q <= k && (r.Some? ==> k < r.value) ==> !ClosesAt(source, k, level)
    decreases |source| - q
  {
    if q == |source| then None
    else if ClosesAt(source, q, level) then Some(q)
    else ManualCloser(source, q + 1, level)
  }

  /** The closer the skipper stops at when the bracket's text begins at `p`: the first one it sees, from `q` on. */
  function SkipperCloser(source: string, p: nat, q: nat, level: nat): (r: Option<nat>)
    requires p <= q <= |source|
    ensures r.Some? ==> q <= r.value && Seen(source, p, r.value, level)
    ensures forall k :: q <= k && (r.Some? ==> k < r.value) ==> !Seen(source, p, k, level)
    decreases |source| - q
  {
    if q == |source| then None
    else if Seen(source, p, q, level) then Some(q)
    else SkipperCloser(source, p, q + 1, level)
  }

  /** The mode the skipper is in at `q` while no closer has been seen. */
  function ModeBefore(source: string, p: nat, q: nat, level: nat): Mode
    requires p <= q <= |source|
  {
    if BracketsBefore(source, p, q) % 2 == 0 then Long(level) else Close(level, EqualsBefore(source, p, q))
  }

  lemma {:induction false} LastBracket(source: string, p: nat, q: nat)
    requires p <= q <= |source| && BracketsBefore(source, p, q) > 0
    ensures var n := EqualsBefore(source, p, q);
      && n < q - p && source[q - n - 1] == ']'
      && BracketsBefore(source, p, q) == BracketsBefore(source, p, q - n - 1) + 1
    decreases q - p
  {
    if source[q - 1] == '=' {
      LastBracket(source, p, q - 1);
    }
  }

  lemma {:induction false} RunInLongBracket(source: string, p: nat, q: nat, level: nat, depth: nat)
    requires p <= q <= |source|
    requires forall k :: p <= k && k + level + 2 <= q ==> !Seen(source, p, k, level)
    ensures Run(source, p, Long(level), depth) == Run(source, q, ModeBefore(source, p, q, level), depth)
    decreases q - p
  {
    if p < q {
      RunInLongBracket(source, p, q - 1, level, depth);
      if BracketsBefore(source, p, q - 1) % 2 == 1 {
        LastBracket(source, p, q - 1);
        var n := EqualsBefore(source, p, q - 1);
        if n == level {
          assert !Seen(source, p, q - 2 - n, level);
        }
      }
    }
  }

  lemma {:induction false} RunThroughEquals(source: string, p: nat, q: nat, level: nat, n: nat, depth: nat)
    requires n <= level && Seen(source, p, q, level)
    ensures Run(source, q, Long(level), depth) == Run(source, q + n + 1, Close(level, n), depth)
  {
    if n > 0 {
      RunThroughEquals(source, p, q, level, n - 1, depth);
    }
  }

  /**
   Skipping a long bracket closes it at the first closer seen, whatever follows, and fails with an
   unexpected end when there is none.
   */
  lemma LongBracketEndsAtSkipperCloser(source: string, p: nat, level: nat, depth: nat)
    requires p <= |source|
    ensures Run(source, p, Long(level), depth) ==
      match SkipperCloser(source, p, p, level)
      case Some(q) => Run(source, q + level + 2, Code, depth)
      case None => Failure(UnexpectedEof)
  {
    match SkipperCloser(source, p, p, level)
    case Some(q) =>
      RunInLongBracket(source, p, q, level, depth);
      RunThroughEquals(source, p, q, level, level, depth);
    case None =>
      RunInLongBracket(source, p, |source|, level, depth);
  }

  /**
   The skipper ends a long bracket where the manual does exactly when the manual knows no end, or an
   even number of `]` run up to it.  Otherwise it reads on past the manual's end.
   */
  lemma AgreesWithTheManualIff(source: string, p: nat, level: nat)
    requires p <= |source|
    ensures var manual, skipper := ManualCloser(source, p, level), SkipperCloser(source, p, p, level);
      && (skipper == manual <==> manual.None? || BracketsBefore(source, p, manual.value) % 2 == 0)
      && (skipper.Some? ==> manual.Some? && manual.value <= skipper.value)
  {
    var manual, skipper := ManualCloser(source, p, level), SkipperCloser(source, p, p, level);
    if skipper.Some? {
      assert ClosesAt(source, skipper.value, level);
    }
    if manual.Some? {
      assert Seen(source, p, manual.value, level) <==> BracketsBefore(source, p, manual.value) % 2 == 0;
    }
  }

  /** `]]=]` ends a bracket of level one by the manual; the skipper reads past it. */
  lemma OverlappingCloserIsMissed()
    ensures ManualCloser("]]=]}", 0, 1) == Some(1)
    ensures Run("]]=]}", 0, Long(1), 0).Failure?
    ensures Run("]=]}", 0, Long(1), 0) == Success(3)
  {
    var s := "]]=]}";
    assert Run(s, 5, Close(1, 0), 0) == Failure(UnexpectedEof);
    assert Run(s, 4, Close(1, 0), 0) == Run(s, 5, Long(1), 0);
    assert Run(s, 3, Long(1), 0) == Run(s, 4, Close(1, 0), 0);
    assert Run(s, 2, Long(1), 0) == Run(s, 3, Long(1), 0);
    assert Run(s, 1, Close(1, 0), 0) == Run(s, 2, Long(1), 0);
    assert Run(s, 0, Long(1), 0) == Run(s, 1, Close(1, 0), 0);
    var t := "]=]}";
    assert Run(t, 3, Code, 0) == Success(3);
    assert Run(t, 2, Close(1, 1), 0) == Run(t, 3, Code, 0);
    assert Run(t, 1, Close(1, 0), 0) == Run(t, 2, Close(1, 1), 0);
    assert Run(t, 0, Long(1), 0) == Run(t, 1, Close(1, 0), 0);
  }
}
