/** Which of two names comes first (internal/natsort/natsort.go). */
module NameOrder {
  import opened GoStrings
  import opened NaturalOrder

  predicate AllChunks(xs: seq<string>) {
    forall i :: 0 <= i < |xs| ==> Chunk(xs[i])
  }

  /** The first `n` chunks of both are the same. */
  predicate Agree(xs: seq<string>, ys: seq<string>, n: nat)
    requires AllChunks(xs) && AllChunks(ys)
  {
    n <= |xs| && n <= |ys| && forall i :: 0 <= i < n ==> Same(xs[i], ys[i])
  }

  lemma AgreeOnward(xs: seq<string>, ys: seq<string>, n: nat)
    requires AllChunks(xs) && AllChunks(ys) && n > 0 && Agree(xs, ys, n)
    ensures Same(xs[0], ys[0]) && Agree(xs[1..], ys[1..], n - 1)
  {
    assert forall i :: 0 <= i < n - 1 ==> xs[1..][i] == xs[i + 1] && ys[1..][i] == ys[i + 1];
  }

  /** The first chunks that differ decide. */
  lemma {:induction false} FirstDifferenceDecides(xs: seq<string>, ys: seq<string>, n: nat)
    requires AllChunks(xs) && AllChunks(ys) && Agree(xs, ys, n)
    requires n < |xs| && n < |ys| && !Same(xs[n], ys[n])
    ensures Precedes(xs, ys) <==> Less(xs[n], ys[n])
    decreases n
  {
    if n > 0 {
      AgreeOnward(xs, ys, n);
      FirstDifferenceDecides(xs[1..], ys[1..], n - 1);
    }
  }

  /** Of two names that agree as far as the shorter goes, the shorter comes first. */
  lemma {:induction false} ShorterFirst(xs: seq<string>, ys: seq<string>)
    requires AllChunks(xs) && AllChunks(ys) && 0 < |xs| < |ys| && Agree(xs, ys, |xs|)
    ensures Precedes(xs, ys) && !Precedes(ys, xs)
    decreases |xs|
  {
    AgreeOnward(xs, ys, |xs|);
    if |xs| > 1 {
      ShorterFirst(xs[1..], ys[1..]);
    }
  }

  /** Text is compared at the first byte that differs, and a text comes behind each of its beginnings. */
  lemma {:induction false} LexIff(a: string, b: string)
    ensures Lex(a, b) <==>
      (a < b || exists k :: 0 <= k < |a| && k < |b| && a[..k] == b[..k] && a[k] < b[k])
    decreases |a|
  {
    if a != "" && b != "" && a[0] == b[0] {
      LexIff(a[1..], b[1..]);
      assert a == [a[0]] + a[1..] && b == [b[0]] + b[1..];
      if k :| 0 <= k < |a[1..]| && k < |b[1..]| && a[1..][..k] == b[1..][..k] && a[1..][k] < b[1..][k] {
        assert a[..k + 1] == [a[0]] + a[1..][..k] && b[..k + 1] == [b[0]] + b[1..][..k];
        assert a[k + 1] < b[k + 1];
      }
      if k :| 0 <= k < |a| && k < |b| && a[..k] == b[..k] && a[k] < b[k] {
        assert k > 0 && a[1..][..k - 1] == a[..k][1..] && b[1..][..k - 1] == b[..k][1..];
        assert a[1..][k - 1] < b[1..][k - 1];
      }
    }
  }

  // ----- numbers -----

  predicate AllDigits(x: string) {
    forall i :: 0 <= i < |x| ==> IsDigit(x[i])
  }

  lemma {:induction false} DecimalIsRead(n: nat)
    ensures Chunk(Decimal(n)) && AllDigits(Decimal(n)) && Value(Decimal(n)) == n
    ensures Numeric(Decimal(n)) <==> n <= MAX_INT
  {
    var x := Decimal(n);
    if n >= 10 {
      DecimalIsRead(n / 10);
      assert x[..|x| - 1] == Decimal(n / 10);
    } else {
      assert x[..0] == "";
    }
  }

  // ----- names that end, or go on, in a number -----

  lemma {:induction false} RunEndOfBoth(s: string, t: string)
    requires s != "" && (t != "" ==> IsDigit(s[|s| - 1]) != IsDigit(t[0]))
    ensures RunEnd(s + t) == RunEnd(s)
    decreases |s|
  {
    if |s| > 1 {
      assert (s + t)[1..] == s[1..] + t;
      if IsDigit(s[1]) == IsDigit(s[0]) {
        RunEndOfBoth(s[1..], t);
      }
    } else if t != "" {
      assert (s + t)[1] == t[0];
    }
  }

  lemma FirstChunk(s: string, n: nat)
    requires s != "" && RunEnd(s) == n
    ensures n <= |s| && Chunks(s) == [s[..n]] + Chunks(s[n..])
  {
  }

  lemma PartsOfBoth(s: string, t: string, n: nat)
    requires n <= |s|
    ensures (s + t)[..n] == s[..n] && (s + t)[n..] == s[n..] + t
  {
  }

  lemma FirstChunkOfBoth(s: string, t: string)
    requires s != "" && (t != "" ==> IsDigit(s[|s| - 1]) != IsDigit(t[0]))
    ensures Chunks(s + t) == [s[..RunEnd(s)]] + Chunks(s[RunEnd(s)..] + t)
  {
    RunEndOfBoth(s, t);
    FirstChunk(s + t, RunEnd(s));
    PartsOfBoth(s, t, RunEnd(s));
  }

  /** Cutting a name where digits begin or end is cutting it between chunks. */
  lemma {:induction false} ChunksOfBoth(s: string, t: string)
    requires s != "" && t != "" ==> IsDigit(s[|s| - 1]) != IsDigit(t[0])
    ensures Chunks(s + t) == Chunks(s) + Chunks(t)
    decreases |s|
  {
    if s == "" {
      assert s + t == t;
    } else {
      var n := RunEnd(s);
      FirstChunkOfBoth(s, t);
      var rest := s[n..];
      assert rest != "" ==> rest[|rest| - 1] == s[|s| - 1];
      ChunksOfBoth(rest, t);
    }
  }

  lemma {:induction false} RunEndOfChunk(x: string)
    requires Chunk(x)
    ensures RunEnd(x) == |x|
    decreases |x|
  {
    if |x| > 1 {
      assert IsDigit(x[1]) == IsDigit(x[0]);
      RunEndOfChunk(x[1..]);
    }
  }

  /** No digit stands at the end of what comes before a number, or at the start of what comes after it. */
  predicate Around(stem: string, rest: string) {
    (stem != "" ==> !IsDigit(stem[|stem| - 1])) && (rest != "" ==> !IsDigit(rest[0]))
  }

  lemma ChunksOfChunk(x: string)
    requires Chunk(x)
    ensures Chunks(x) == [x]
  {
    RunEndOfChunk(x);
    FirstChunk(x, |x|);
    assert x[..|x|] == x && x[|x|..] == "";
  }

  lemma ChunksAround(stem: string, x: string, rest: string)
    requires Around(stem, rest) && Chunk(x) && IsDigit(x[0])
    ensures Chunks(stem + (x + rest)) == Chunks(stem) + ([x] + Chunks(rest))
  {
    assert IsDigit(x[|x| - 1]);
    ChunksOfChunk(x);
    ChunksOfBoth(x, rest);
    ChunksOfBoth(stem, x + rest);
  }

  /** Names that first differ in a number come in the order of the numbers: `a2.sinq` before `a10.sinq`. */
  lemma NumbersGoByValue(stem: string, m: nat, n: nat, rest: string, other: string)
    requires Around(stem, rest) && Around(stem, other) && m < n <= MAX_INT
    ensures Before(stem + (Decimal(m) + rest), stem + (Decimal(n) + other))
    ensures !Before(stem + (Decimal(n) + other), stem + (Decimal(m) + rest))
  {
    var xs, ys := Chunks(stem + (Decimal(m) + rest)), Chunks(stem + (Decimal(n) + other));
    DecimalIsRead(m);
    DecimalIsRead(n);
    ChunksAround(stem, Decimal(m), rest);
    ChunksAround(stem, Decimal(n), other);
    var k := |Chunks(stem)|;
    assert xs[k] == Decimal(m) && ys[k] == Decimal(n);
    FirstDifferenceDecides(xs, ys, k);
    FirstDifferenceDecides(ys, xs, k);
  }
}
