/**
 The order in which a directory's entries are read (internal/natsort/natsort.go, used with an equality
 guard in internal/treewalker/treewalker.go).
 */
module NaturalOrder {
  import opened GoStrings

  const MAX_INT := 0x7fff_ffff_ffff_ffff

  predicate IsDigit(c: char) {
    '0' <= c <= '9'
  }

  /** How far the run of digits, or of other characters, goes that begins the string. */
  function RunEnd(s: string): (n: nat)
    requires s != ""
    ensures 1 <= n <= |s| && forall i :: 0 <= i < n ==> IsDigit(s[i]) == IsDigit(s[0])
  {
    if |s| == 1 || IsDigit(s[1]) != IsDigit(s[0]) then 1 else 1 + RunEnd(s[1..])
  }

  predicate Chunk(x: string) {
    x != "" && forall i :: 0 <= i < |x| ==> IsDigit(x[i]) == IsDigit(x[0])
  }

  /** The string cut into its runs of digits and of other characters. */
  function Chunks(s: string): (chunks: seq<string>)
    ensures s != "" ==> chunks != []
    ensures forall i :: 0 <= i < |chunks| ==> Chunk(chunks[i])
  {
    if s == "" then [] else [s[..RunEnd(s)]] + Chunks(s[RunEnd(s)..])
  }

  function Value(x: string): nat
    requires forall i :: 0 <= i < |x| ==> IsDigit(x[i])
  {
    if x == "" then 0
    else
      assert IsDigit(x[|x| - 1]);
      Value(x[..|x| - 1]) * 10 + (x[|x| - 1] as int - '0' as int)
  }

  /** The chunk is read as a number: digits, and not too many of them. */
  predicate Numeric(x: string)
    requires Chunk(x)
  {
    IsDigit(x[0]) && Value(x) <= MAX_INT
  }

  predicate Same(x: string, y: string)
    requires Chunk(x) && Chunk(y)
  {
    x == y || (Numeric(x) && Numeric(y) && Value(x) == Value(y))
  }

  predicate Less(x: string, y: string)
    requires Chunk(x) && Chunk(y)
  {
    if Numeric(x) && Numeric(y) then Value(x) < Value(y) else Lex(x, y)
  }

  /**
   Chunk by chunk; of two that agree as far as they go, the shorter comes first, and so does either of two that agree
   throughout.
   */
  predicate Precedes(xs: seq<string>, ys: seq<string>)
    requires forall i :: 0 <= i < |xs| ==> Chunk(xs[i])
    requires forall i :: 0 <= i < |ys| ==> Chunk(ys[i])
  {
    xs != [] && ys != [] &&
    if Same(xs[0], ys[0]) then |xs| == 1 || (|ys| > 1 && Precedes(xs[1..], ys[1..]))
    else Less(xs[0], ys[0])
  }

  method Compare(a: string, b: string) returns (r: bool)
    ensures r == Precedes(Chunks(a), Chunks(b))
  {
    var chunksA, chunksB := Chunks(a), Chunks(b);
    for i := 0 to |chunksA|
      invariant i > 0 ==> i < |chunksA| && i < |chunksB|
      invariant Precedes(chunksA, chunksB) == Precedes(chunksA[i..], chunksB[if i <= |chunksB| then i else |chunksB|..])
    {
      if i >= |chunksB| {
        return false;
      }
      if Numeric(chunksA[i]) && Numeric(chunksB[i]) {
        var aInt, bInt := Value(chunksA[i]), Value(chunksB[i]);
        if aInt == bInt {
          if i == |chunksA| - 1 {
            return true;
          } else if i == |chunksB| - 1 {
            return false;
          }
          continue;
        }
        return aInt < bInt;
      }
      if chunksA[i] == chunksB[i] {
        if i == |chunksA| - 1 {
          return true;
        } else if i == |chunksB| - 1 {
          return false;
        }
        continue;
      }
      return Lex(chunksA[i], chunksB[i]);
    }
    return false;
  }

  // ----- cutting loses nothing -----

  function Join(chunks: seq<string>): string {
    if chunks == [] then "" else chunks[0] + Join(chunks[1..])
  }

  lemma {:induction false} JoinOfChunks(s: string)
    ensures Join(Chunks(s)) == s
  {
    if s != "" {
      JoinOfChunks(s[RunEnd(s)..]);
    }
  }

  lemma {:induction false} RunIsMaximal(s: string)
    requires s != ""
    ensures RunEnd(s) < |s| ==> IsDigit(s[RunEnd(s)]) != IsDigit(s[0])
  {
    if |s| > 1 && IsDigit(s[1]) == IsDigit(s[0]) {
      RunIsMaximal(s[1..]);
    }
  }

  /** Digits and other characters take turns. */
  lemma {:induction false} ChunksAlternate(s: string, i: nat)
    requires i + 1 < |Chunks(s)|
    ensures IsDigit(Chunks(s)[i][0]) != IsDigit(Chunks(s)[i + 1][0])
  {
    var rest := s[RunEnd(s)..];
    if i > 0 {
      ChunksAlternate(rest, i - 1);
    } else {
      RunIsMaximal(s);
      assert Chunks(s)[1] == rest[..RunEnd(rest)];
    }
  }

  // ----- chunks -----

  /** A run of digits is not too long to be read as a number. */
  predicate Fits(x: string)
    requires Chunk(x)
  {
    IsDigit(x[0]) ==> Numeric(x)
  }

  lemma Trichotomy(x: string, y: string)
    requires Chunk(x) && Chunk(y) && !Same(x, y)
    ensures Less(x, y) <==> !Less(y, x)
  {
    LexTotal(x, y);
  }

  lemma LessTransitive(x: string, y: string, z: string)
    requires Chunk(x) && Chunk(y) && Chunk(z) && Fits(x) && Fits(y) && Fits(z)
    requires Less(x, y) && Less(y, z) && !Same(x, y) && !Same(y, z)
    ensures Less(x, z) && !Same(x, z)
  {
    LexTotal(x, y);
    LexTotal(y, z);
    if !(Numeric(x) && Numeric(y)) && !(Numeric(y) && Numeric(z)) {
      LexTransitive(x, y, z);
      LexTotal(x, z);
    }
  }

  lemma SameBefore(x: string, y: string, z: string)
    requires Chunk(x) && Chunk(y) && Chunk(z) && Fits(x) && Fits(y) && Fits(z)
    requires Same(x, y) && Less(y, z) && !Same(y, z)
    ensures Less(x, z) && !Same(x, z)
  {
  }

  lemma SameAfter(x: string, y: string, z: string)
    requires Chunk(x) && Chunk(y) && Chunk(z) && Fits(x) && Fits(y) && Fits(z)
    requires Less(x, y) && Same(y, z) && !Same(x, y)
    ensures Less(x, z) && !Same(x, z)
  {
  }

  // ----- names -----

  predicate AllFit(xs: seq<string>) {
    forall i :: 0 <= i < |xs| ==> Chunk(xs[i]) && Fits(xs[i])
  }

  /** Chunk for chunk the same, but perhaps for leading zeros. */
  predicate Tied(xs: seq<string>, ys: seq<string>)
    requires forall i :: 0 <= i < |xs| ==> Chunk(xs[i])
    requires forall i :: 0 <= i < |ys| ==> Chunk(ys[i])
  {
    |xs| == |ys| && forall i :: 0 <= i < |xs| ==> Same(xs[i], ys[i])
  }

  lemma {:induction false} BothWaysIff(xs: seq<string>, ys: seq<string>)
    requires forall i :: 0 <= i < |xs| ==> Chunk(xs[i])
    requires forall i :: 0 <= i < |ys| ==> Chunk(ys[i])
    requires xs != [] && ys != []
    ensures Precedes(xs, ys) || Precedes(ys, xs)
    ensures Precedes(xs, ys) && Precedes(ys, xs) <==> Tied(xs, ys)
  {
    if Same(xs[0], ys[0]) {
      if |xs| > 1 && |ys| > 1 {
        BothWaysIff(xs[1..], ys[1..]);
        assert Tied(xs, ys) <==> Tied(xs[1..], ys[1..]);
      }
    } else {
      Trichotomy(xs[0], ys[0]);
    }
  }

  lemma {:induction false} PrecedesTransitive(xs: seq<string>, ys: seq<string>, zs: seq<string>)
    requires AllFit(xs) && AllFit(ys) && AllFit(zs) && Precedes(xs, ys) && Precedes(ys, zs)
    ensures Precedes(xs, zs)
  {
    var x, y, z := xs[0], ys[0], zs[0];
    if Same(x, y) && Same(y, z) {
      if |xs| > 1 {
        PrecedesTransitive(xs[1..], ys[1..], zs[1..]);
      }
    } else if Same(x, y) {
      SameBefore(x, y, z);
    } else if Same(y, z) {
      SameAfter(x, y, z);
    } else {
      LessTransitive(x, y, z);
    }
  }

  predicate Before(a: string, b: string) {
    Precedes(Chunks(a), Chunks(b))
  }

  /** Of two names exactly one comes before the other, unless one is empty or they differ in leading zeros only. */
  lemma OneWayIff(a: string, b: string)
    ensures Before(a, b) != Before(b, a) <==> a != "" && b != "" && !Tied(Chunks(a), Chunks(b))
  {
    if a != "" && b != "" {
      BothWaysIff(Chunks(a), Chunks(b));
    }
  }

  predicate NoLeadingZero(x: string)
    requires Chunk(x)
  {
    |x| > 1 && IsDigit(x[0]) ==> x[0] != '0'
  }

  lemma {:induction false} PositiveValue(x: string)
    requires x != "" && (forall i :: 0 <= i < |x| ==> IsDigit(x[i])) && x[0] != '0'
    ensures Value(x) > 0
  {
    if |x| > 1 {
      PositiveValue(x[..|x| - 1]);
    }
  }

  lemma {:induction false} NumeralsDiffer(x: string, y: string)
    requires Chunk(x) && Chunk(y) && IsDigit(x[0]) && IsDigit(y[0]) && NoLeadingZero(x) && NoLeadingZero(y)
    requires Value(x) == Value(y)
    ensures x == y
  {
    var m, n := |x| - 1, |y| - 1;
    assert IsDigit(x[m]) && IsDigit(y[n]);
    assert Value(x[..m]) == Value(y[..n]) && x[m] == y[n];
    if m > 0 {
      PositiveValue(x[..m]);
    }
    if n > 0 {
      PositiveValue(y[..n]);
    }
    if m > 0 && n > 0 {
      NumeralsDiffer(x[..m], y[..n]);
    }
    assert x == x[..m] + [x[m]] && y == y[..n] + [y[n]];
  }

  /** A name whose runs of digits have no leading zeros and can be read as numbers. */
  predicate Ordinary(name: string) {
    name != "" && AllFit(Chunks(name)) && forall i :: 0 <= i < |Chunks(name)| ==> NoLeadingZero(Chunks(name)[i])
  }

  lemma OrdinaryNamesDiffer(a: string, b: string)
    requires Ordinary(a) && Ordinary(b) && Tied(Chunks(a), Chunks(b))
    ensures a == b
  {
    var xs, ys := Chunks(a), Chunks(b);
    forall i | 0 <= i < |xs|
      ensures xs[i] == ys[i]
    {
      if xs[i] != ys[i] {
        NumeralsDiffer(xs[i], ys[i]);
      }
    }
    assert xs == ys;
    JoinOfChunks(a);
    JoinOfChunks(b);
  }

  /** On different ordinary names the comparison is a strict total order. */
  lemma StrictTotalOrder(a: string, b: string, c: string)
    requires Ordinary(a) && Ordinary(b) && Ordinary(c)
    ensures a != b ==> Before(a, b) != Before(b, a)
    ensures Before(a, b) && Before(b, c) ==> Before(a, c)
  {
    OneWayIff(a, b);
    if Tied(Chunks(a), Chunks(b)) {
      OrdinaryNamesDiffer(a, b);
    }
    if Before(a, b) && Before(b, c) {
      PrecedesTransitive(Chunks(a), Chunks(b), Chunks(c));
    }
  }

  // ----- a directory's order -----

  /** Sorted under the equality guard of the caller. */
  predicate Sorted(names: seq<string>) {
    forall i, j :: 0 <= i < j < |names| ==> names[i] != names[j] && Before(names[i], names[j])
  }

  lemma FirstIsLeast(names: seq<string>, name: string)
    requires Sorted(names) && name in names && name != names[0]
    ensures Before(names[0], name)
  {
  }

  lemma SortedRest(names: seq<string>)
    requires Sorted(names) && names != []
    ensures Sorted(names[1..]) && names[0] !in names[1..]
  {
  }

  lemma SomeName(names: seq<string>)
    ensures names != [] ==> names[0] in names && exists name :: name in names
  {
    if names != [] {
      assert names[0] in names;
    }
  }

  /** However the entries come, sorting different ordinary names leaves no choice. */
  lemma {:induction false} SortedOneWay(s: seq<string>, t: seq<string>)
    requires Sorted(s) && Sorted(t) && forall name :: name in s <==> name in t
    requires forall i :: 0 <= i < |s| ==> Ordinary(s[i])
    ensures s == t
    decreases |s|
  {
    SomeName(s);
    SomeName(t);
    if s != [] {
      if s[0] != t[0] {
        FirstIsLeast(s, t[0]);
        FirstIsLeast(t, s[0]);
        StrictTotalOrder(s[0], t[0], t[0]);
        assert false;
      }
      SortedRest(s);
      SortedRest(t);
      forall name
        ensures name in s[1..] <==> name in t[1..]
      {
        assert name in s <==> name == s[0] || name in s[1..];
        assert name in t <==> name == t[0] || name in t[1..];
      }
      SortedOneWay(s[1..], t[1..]);
    }
  }

  // ----- what goes wrong otherwise -----

  /** The caller's guard against equal names is needed: a name comes before itself. */
  lemma BeforeItself(a: string)
    ensures Before(a, a) <==> a != ""
  {
    if a != "" {
      BothWaysIff(Chunks(a), Chunks(a));
    }
  }

  /** An empty name is before and after none. */
  lemma EmptyNameIsUnordered(a: string)
    ensures !Before("", a) && !Before(a, "")
  {
  }

  lemma {:induction false} DigitsAreOneChunk(s: string)
    requires s != "" && forall i :: 0 <= i < |s| ==> IsDigit(s[i])
    ensures RunEnd(s) == |s| && Chunks(s) == [s]
  {
    if |s| > 1 {
      DigitsAreOneChunk(s[1..]);
    }
    assert s[..|s|] == s && s[|s|..] == "";
  }

  /** Leading zeros: each of the two comes before the other. */
  lemma LeadingZerosTie()
    ensures Before("01", "1") && Before("1", "01")
  {
    DigitsAreOneChunk("01");
    DigitsAreOneChunk("1");
    assert Value("01"[..1]) == 0 by {
      assert "01"[..1] == "0" && Value("0"[..0]) == 0;
    }
    assert Value("1"[..0]) == 0;
  }

  /** A number too large to be read stands, as text, between two others that come the other way round by value. */
  predicate Crossed(a: string, m: string, b: string)
    requires Chunk(a) && Chunk(m) && Chunk(b)
  {
    Numeric(a) && Numeric(b) && !Numeric(m) && Lex(a, m) && Lex(m, b) && Value(b) < Value(a)
  }

  /** Three chunks go round exactly if one of them stands between the other two in this way. */
  lemma GoesRoundIff(x: string, y: string, z: string)
    requires Chunk(x) && Chunk(y) && Chunk(z)
    requires !Same(x, y) && !Same(y, z) && !Same(z, x)
    ensures Less(x, y) && Less(y, z) && Less(z, x) <==> Crossed(x, y, z) || Crossed(y, z, x) || Crossed(z, x, y)
  {
    LexTotal(x, y);
    LexTotal(y, z);
    LexTotal(z, x);
    if Lex(x, y) && Lex(y, z) {
      LexTransitive(x, y, z);
    }
    if Lex(y, z) && Lex(z, x) {
      LexTransitive(y, z, x);
    }
    if Lex(z, x) && Lex(x, y) {
      LexTransitive(z, x, y);
    }
  }

  /** The first chunks in which the three names differ go round. */
  predicate GoRound(xs: seq<string>, ys: seq<string>, zs: seq<string>)
    requires forall i :: 0 <= i < |xs| ==> Chunk(xs[i])
    requires forall i :: 0 <= i < |ys| ==> Chunk(ys[i])
    requires forall i :: 0 <= i < |zs| ==> Chunk(zs[i])
  {
    xs != [] && ys != [] && zs != [] &&
    if xs[0] == ys[0] == zs[0] then GoRound(xs[1..], ys[1..], zs[1..])
    else Crossed(xs[0], ys[0], zs[0]) || Crossed(ys[0], zs[0], xs[0]) || Crossed(zs[0], xs[0], ys[0])
  }

  predicate NoLeadingZeros(xs: seq<string>) {
    forall i :: 0 <= i < |xs| ==> Chunk(xs[i]) && NoLeadingZero(xs[i])
  }

  lemma SameIsEqual(x: string, y: string)
    requires Chunk(x) && Chunk(y) && NoLeadingZero(x) && NoLeadingZero(y)
    ensures Same(x, y) <==> x == y
  {
    if Same(x, y) && x != y {
      NumeralsDiffer(x, y);
    }
  }

  lemma FirstChunksDecide(x: string, y: string, z: string)
    requires Chunk(x) && Chunk(y) && Chunk(z) && (x == y || Less(x, y)) && (y == z || Less(y, z)) && !(x == y == z)
    requires (Same(x, y) <==> x == y) && (Same(y, z) <==> y == z) && (Same(x, z) <==> x == z)
    ensures x != z
    ensures Less(x, z) <==> !(Crossed(x, y, z) || Crossed(y, z, x) || Crossed(z, x, y))
  {
    LexTotal(x, y);
    LexTotal(y, z);
    if x != y && y != z {
      Trichotomy(x, y);
      if x != z {
        Trichotomy(x, z);
        GoesRoundIff(x, y, z);
      }
    }
  }

  /** Without leading zeros, two steps of the order make one unless the names go round. */
  lemma {:induction false} TransitiveIff(xs: seq<string>, ys: seq<string>, zs: seq<string>)
    requires NoLeadingZeros(xs) && NoLeadingZeros(ys) && NoLeadingZeros(zs)
    requires Precedes(xs, ys) && Precedes(ys, zs)
    ensures Precedes(xs, zs) <==> !GoRound(xs, ys, zs)
  {
    var x, y, z := xs[0], ys[0], zs[0];
    SameIsEqual(x, y);
    SameIsEqual(y, z);
    SameIsEqual(x, z);
    if x == y == z {
      if |xs| > 1 {
        TransitiveIff(xs[1..], ys[1..], zs[1..]);
      }
    } else {
      FirstChunksDecide(x, y, z);
    }
  }

  function PowerOfTen(n: nat): (x: string)
    ensures |x| == n + 1 && x[0] == '1' && forall i :: 1 <= i <= n ==> x[i] == '0'
  {
    if n == 0 then "1" else PowerOfTen(n - 1) + "0"
  }

  function Pow(n: nat): nat {
    if n == 0 then 1 else 10 * Pow(n - 1)
  }

  lemma {:induction false} ValueOfPower(n: nat)
    ensures Value(PowerOfTen(n)) == Pow(n)
  {
    var x := PowerOfTen(n);
    if n > 0 {
      ValueOfPower(n - 1);
      assert x[..n] == PowerOfTen(n - 1);
    } else {
      assert Value(x[..0]) == 0;
    }
  }

  lemma {:induction false} PowGrows(m: nat, n: nat)
    requires m <= n
    ensures Pow(m) <= Pow(n)
  {
    if m < n {
      PowGrows(m, n - 1);
    }
  }

  lemma TooLarge()
    ensures Pow(19) > MAX_INT
  {
    assert Pow(4) == 10 * Pow(3) == 100 * Pow(2) == 1000 * Pow(1) == 10_000;
    assert Pow(8) == 10 * Pow(7) == 100 * Pow(6) == 1000 * Pow(5) == 10_000 * Pow(4);
    assert Pow(12) == 10 * Pow(11) == 100 * Pow(10) == 1000 * Pow(9) == 10_000 * Pow(8);
    assert Pow(16) == 10 * Pow(15) == 100 * Pow(14) == 1000 * Pow(13) == 10_000 * Pow(12);
    assert Pow(19) == 10 * Pow(18) == 100 * Pow(17) == 1000 * Pow(16);
  }

  lemma SmallNumbers()
    ensures Chunks("9") == ["9"] && Chunks("10") == ["10"] && Value("9") == 9 && Value("10") == 10
  {
    DigitsAreOneChunk("9");
    DigitsAreOneChunk("10");
    assert Value("9"[..0]) == 0;
    assert "10"[..1] == "1" && Value("1"[..0]) == 0 && Value("1") == 1;
  }

  /** Numbers that do not fit are compared as text: 9 before 10 before any too large power of ten before 9. */
  lemma OverflowGoesRound(n: nat)
    requires n >= 19
    ensures Before("9", "10") && Before("10", PowerOfTen(n)) && Before(PowerOfTen(n), "9")
  {
    var c := PowerOfTen(n);
    SmallNumbers();
    DigitsAreOneChunk(c);
    ValueOfPower(n);
    PowGrows(19, n);
    TooLarge();
    assert "10"[1..] == "0" && "0"[1..] == "";
    assert c[1..][0] == '0' && c[1..][1..] != "";
  }
}
