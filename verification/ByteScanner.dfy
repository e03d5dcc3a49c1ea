/**
 The cursor under both parsers (internal/scanner/byte-scanner.go).

 A byte is modelled by the character with the same code, and a source by a string; nothing below
 depends on the codes being less than 256.
 */
module ByteScanner {
  import opened Prelude

  const NUL := '\0'

  /** The line a reader is on after `p` bytes: one more than the newlines among them. */
  function LineAt(source: string, p: nat): nat
    requires p <= |source|
  {
    if p == 0 then 1 else LineAt(source, p - 1) + (if source[p - 1] == '\n' then 1 else 0)
  }

  /** The first position of the line that position `p` is on. */
  function LineStart(source: string, p: nat): (start: nat)
    requires p <= |source|
    ensures start <= p
  {
    if p == 0 || source[p - 1] == '\n' then p else LineStart(source, p - 1)
  }

  lemma {:induction false} LineStartIsLineStart(source: string, p: nat)
    requires p <= |source|
    ensures var start := LineStart(source, p);
      && (start == 0 || source[start - 1] == '\n')
      && forall k :: start <= k < p ==> source[k] != '\n'
  {
    if p > 0 && source[p - 1] != '\n' {
      LineStartIsLineStart(source, p - 1);
    }
  }

  /** The column of position `p`, counted from 1. */
  function OffsetAt(source: string, p: nat): nat
    requires p <= |source|
  {
    p - LineStart(source, p) + 1
  }

  /** Line and column depend on what comes before alone. */
  lemma {:induction false} RecountIsPrefixStable(source: string, other: string, p: nat)
    requires p <= |source| && p <= |other| && source[..p] == other[..p]
    ensures LineAt(source, p) == LineAt(other, p) && LineStart(source, p) == LineStart(other, p)
    ensures OffsetAt(source, p) == OffsetAt(other, p)
  {
    if p > 0 {
      assert source[p - 1] == source[..p][p - 1] == other[..p][p - 1] == other[p - 1];
      assert source[..p - 1] == source[..p][..p - 1] == other[..p][..p - 1] == other[..p - 1];
      RecountIsPrefixStable(source, other, p - 1);
    }
  }

  function Prev(source: string, p: nat): char {
    if 0 < p <= |source| then source[p - 1] else NUL
  }

  class Scanner {
    const source: string
    var current: nat
    var line: nat
    var offset: nat

    /** Line and column are never stale: they are always the ones a recount from the start gives. */
    ghost predicate Valid()
      reads this
    {
      && current <= |source|
      && line == LineAt(source, current)
      && offset == OffsetAt(source, current)
    }

    constructor (source: string)
      ensures Valid() && this.source == source && current == 0
    {
      this.source := source;
      current, line, offset := 0, 1, 1;
    }

    method Advance()
      requires Valid()
      modifies this
      ensures Valid()
      ensures current == if old(current) < |source| then old(current) + 1 else old(current)
    {
      if current >= |source| {
        return;
      }
      var b := source[current];
      offset := offset + 1;
      if b == '\n' {
        line := line + 1;
        offset := 1;
      }
      current := current + 1;
    }

    /** The byte under the cursor; `None` is the end of the source. */
    function Read(): (b: Option<char>)
      reads this
      ensures b.None? <==> current >= |source|
      ensures b.Some? ==> b.value == source[current]
    {
      if current >= |source| then None else Some(source[current])
    }

    function Previous(): (b: char)
      reads this
      ensures current <= |source| ==> b == Prev(source, current)
    {
      if current < 1 || current - 1 >= |source| then NUL else source[current - 1]
    }

    function Slice(from: int, to: int): (bytes: string)
      ensures 0 <= from <= to <= |source| ==> bytes == source[from..to]
      ensures 0 <= from <= |source| && to == -1 ==> bytes == source[from..]
      ensures from < 0 || to > |source| || (to >= 0 && from > to) || to < -1 ==> bytes == ""
    {
      var end := if to == -1 then |source| else to;
      if from < 0 || from > end || end > |source| then "" else source[from..end]
    }
  }

  /** Line numbers never decrease, and stay put exactly as long as no newline is passed. */
  lemma {:induction false} LineMonotone(source: string, p: nat, q: nat)
    requires p <= q <= |source|
    ensures LineAt(source, p) <= LineAt(source, q)
    ensures LineAt(source, p) == LineAt(source, q) <==> forall k :: p <= k < q ==> source[k] != '\n'
    decreases q
  {
    if p < q {
      LineMonotone(source, p, q - 1);
    }
  }

  /**
   A position is determined by the line and column reported for it, and the pairs are ordered as the positions are.
   */
  lemma LineColumnOrdersPositions(source: string, p: nat, q: nat)
    requires p < q <= |source|
    ensures LineAt(source, p) < LineAt(source, q)
         || (LineAt(source, p) == LineAt(source, q) && OffsetAt(source, p) < OffsetAt(source, q))
  {
    LineMonotone(source, p, q);
    if LineAt(source, p) == LineAt(source, q) {
      LineStartIsLineStart(source, p);
      LineStartIsLineStart(source, q);
      var a, b := LineStart(source, p), LineStart(source, q);
      assert b <= p;
      assert a == b;
    }
  }
}
