/**
 Strings that stand somewhere in a source, for the proofs that what is printed is parsed back: where a concatenation
 stands, its parts stand one after the other.  The predicate is kept folded up, since a proof that goes through a
 whole file has many of them and needs what few of them say.
 */
module Positions {
  /** What is kept folded up, each by itself. */
  datatype Fold =
    | Place(p: nat)
    | Writings | Starts | Contents | Scripts | Bodies | Wholes | Heads | Files | Readings | MessageParts

  /**
   Stands for nothing.  A predicate defined under a quantifier over it is not unfolded until its fold is
   looked at.
   */
  predicate Look(fold: Fold) {
    true
  }

  /** The string `x` stands in the source at `p`. */
  ghost predicate Stands(source: string, p: nat, x: string) {
    p + |x| <= |source| && forall n {:trigger Look(Place(n))} :: Look(Place(n)) && n == p ==> source[p..p + |x|] == x
  }

  lemma StandsSlice(source: string, p: nat, x: string)
    ensures Stands(source, p, x) <==> p + |x| <= |source| && source[p..p + |x|] == x
  {
    assert Look(Place(p));
  }

  lemma StandsSplit(source: string, p: nat, x: string, y: string)
    requires Stands(source, p, x + y)
    ensures Stands(source, p, x) && Stands(source, p + |x|, y) && p + |x| + |y| <= |source|
  {
    StandsSlice(source, p, x + y);
    assert x == (x + y)[..|x|] && y == (x + y)[|x|..];
    StandsSlice(source, p, x);
    StandsSlice(source, p + |x|, y);
  }

  lemma StandsByte(source: string, p: nat, x: string, k: nat)
    requires Stands(source, p, x) && k < |x|
    ensures p + |x| <= |source| && source[p + k] == x[k]
  {
    StandsSlice(source, p, x);
    assert source[p + k] == source[p..p + |x|][k];
  }
}
