/**
 The library functions on bytes and strings that the parsers and the sorting lean on: unicode.IsSpace on a byte,
 strings.TrimSpace on UTF-8 text, bytes.IndexByte, strings.Compare and the decimal spelling of a number.  A string is
 a sequence of bytes here, so that a rune of several bytes is looked for byte by byte.
 */
module GoStrings {

  /** unicode.IsSpace(rune(b)) for one byte: the Latin-1 white space. */
  predicate IsSpace(b: char) {
    ('\t' <= b <= '\r') || b == ' ' || b == '\U{85}' || b == '\U{A0}'
  }

  /** U+1680, U+2000..U+200A, U+2028, U+2029, U+202F, U+205F and U+3000 in UTF-8. */
  predicate WideSpace(a: char, b: char, c: char) {
    || (a == '\U{E1}' && b == '\U{9A}' && c == '\U{80}')
    || (a == '\U{E2}' && b == '\U{80}' && ('\U{80}' <= c <= '\U{8A}' || c in {'\U{A8}', '\U{A9}', '\U{AF}'}))
    || (a == '\U{E2}' && b == '\U{81}' && c == '\U{9F}')
    || (a == '\U{E3}' && b == '\U{80}' && c == '\U{80}')
  }

  /** How many bytes of white space, as one UTF-8 encoded rune, begin `s`; 0 when none do. */
  function LeadingSpace(s: string): (n: nat)
    ensures n <= |s|
  {
    if |s| >= 1 && ('\t' <= s[0] <= '\r' || s[0] == ' ') then 1
    else if |s| >= 2 && s[0] == '\U{C2}' && s[1] in {'\U{85}', '\U{A0}'} then 2
    else if |s| >= 3 && WideSpace(s[0], s[1], s[2]) then 3
    else 0
  }

  function TrailingSpace(s: string): (n: nat)
    ensures n <= |s|
  {
    var e := |s|;
    if e >= 1 && ('\t' <= s[e - 1] <= '\r' || s[e - 1] == ' ') then 1
    else if e >= 2 && s[e - 2] == '\U{C2}' && s[e - 1] in {'\U{85}', '\U{A0}'} then 2
    else if e >= 3 && WideSpace(s[e - 3], s[e - 2], s[e - 1]) then 3
    else 0
  }

  function TrimLeft(s: string): string
    decreases |s|
  {
    if LeadingSpace(s) > 0 then TrimLeft(s[LeadingSpace(s)..]) else s
  }

  function TrimRight(s: string): string
    decreases |s|
  {
    if TrailingSpace(s) > 0 then TrimRight(s[..|s| - TrailingSpace(s)]) else s
  }

  /** strings.TrimSpace. */
  function TrimSpace(s: string): string {
    TrimRight(TrimLeft(s))
  }

  /** White space through and through, as UTF-8 encoded runes. */
  predicate OnlySpace(s: string)
    decreases |s|
  {
    s == "" || (LeadingSpace(s) > 0 && OnlySpace(s[LeadingSpace(s)..]))
  }

  lemma SpaceFirst(space: string, more: string)
    requires space != "" && (LeadingSpace(space) == |space| || TrailingSpace(space) == |space|)
    ensures LeadingSpace(space + more) == |space| && (OnlySpace(more) ==> OnlySpace(space + more))
  {
    assert (space + more)[|space|..] == more;
  }

  lemma {:induction false} TrimLeftTrims(s: string) returns (i: nat)
    ensures i <= |s| && TrimLeft(s) == s[i..] && OnlySpace(s[..i]) && LeadingSpace(TrimLeft(s)) == 0
    decreases |s|
  {
    var n := LeadingSpace(s);
    if n > 0 {
      i := TrimLeftTrims(s[n..]);
      assert s[n..][i..] == s[n + i..] && s[..n + i] == s[..n] + s[n..][..i];
      assert LeadingSpace(s[..n]) == n;
      SpaceFirst(s[..n], s[n..][..i]);
      i := n + i;
    } else {
      i := 0;
    }
  }

  lemma {:induction false} SpaceLast(some: string, space: string)
    requires OnlySpace(some) && OnlySpace(space)
    ensures OnlySpace(some + space)
    decreases |some|
  {
    if some == "" {
      assert some + space == space;
    } else {
      var n := LeadingSpace(some);
      assert LeadingSpace(some[..n]) == n && some[..n] + (some[n..] + space) == some + space;
      SpaceLast(some[n..], space);
      SpaceFirst(some[..n], some[n..] + space);
    }
  }

  lemma RuneIsSpace(s: string, n: nat)
    requires n == TrailingSpace(s) > 0
    ensures OnlySpace(s[|s| - n..])
  {
    var space := s[|s| - n..];
    assert TrailingSpace(space) == n;
    SpaceFirst(space, "");
    assert space + "" == space;
  }

  /** One rune of white space more at the end. */
  lemma SpaceBehind(s: string, j: nat, n: nat)
    requires n == TrailingSpace(s) > 0 && j <= |s| - n && OnlySpace(s[..|s| - n][j..])
    ensures OnlySpace(s[j..])
  {
    var front, space := s[..|s| - n], s[|s| - n..];
    RuneIsSpace(s, n);
    assert s[j..] == front[j..] + space;
    SpaceLast(front[j..], space);
  }

  lemma {:induction false} TrimRightTrims(s: string) returns (j: nat)
    ensures j <= |s| && TrimRight(s) == s[..j] && OnlySpace(s[j..]) && TrailingSpace(TrimRight(s)) == 0
    decreases |s|
  {
    var n := TrailingSpace(s);
    if n > 0 {
      j := TrimRightTrims(s[..|s| - n]);
      assert s[..|s| - n][..j] == s[..j];
      SpaceBehind(s, j, n);
    } else {
      j := |s|;
    }
  }

  lemma PrefixKeepsStart(s: string, x: string)
    requires x <= s && LeadingSpace(s) == 0
    ensures LeadingSpace(x) == 0
  {
  }

  /** What is trimmed off at either end is white space, and what is left neither begins nor ends in it. */
  lemma TrimSpaceTrims(s: string) returns (i: nat, j: nat)
    ensures i <= j <= |s| && TrimSpace(s) == s[i..j] && OnlySpace(s[..i]) && OnlySpace(s[j..])
    ensures LeadingSpace(TrimSpace(s)) == 0 && TrailingSpace(TrimSpace(s)) == 0
  {
    i := TrimLeftTrims(s);
    var k := TrimRightTrims(TrimLeft(s));
    PrefixKeepsStart(TrimLeft(s), TrimSpace(s));
    j := i + k;
    assert s[i..][k..] == s[j..] && s[i..][..k] == s[i..j];
  }

  lemma {:induction false} NothingIsLeft(s: string)
    ensures OnlySpace(s) ==> TrimLeft(s) == ""
    decreases |s|
  {
    if LeadingSpace(s) > 0 {
      NothingIsLeft(s[LeadingSpace(s)..]);
    }
  }

  /** Nothing is left exactly of what is white space through and through. */
  lemma TrimmedAwayIff(s: string)
    ensures TrimSpace(s) == "" <==> OnlySpace(s)
  {
    NothingIsLeft(s);
    var i, j := TrimSpaceTrims(s);
    if TrimSpace(s) == "" {
      assert s == s[..i] + s[i..];
      SpaceLast(s[..i], s[i..]);
    }
  }

  /** The first byte at or after `p` that is not white space, or the end. */
  function SkipSpace(s: string, p: nat): (q: nat)
    requires p <= |s|
    ensures p <= q <= |s|
    decreases |s| - p
  {
    if p < |s| && IsSpace(s[p]) then SkipSpace(s, p + 1) else p
  }

  lemma {:induction false} SkipSpaceSkips(s: string, p: nat)
    requires p <= |s|
    ensures forall k :: p <= k < SkipSpace(s, p) ==> IsSpace(s[k])
    ensures SkipSpace(s, p) < |s| ==> !IsSpace(s[SkipSpace(s, p)])
    decreases |s| - p
  {
    if p < |s| && IsSpace(s[p]) {
      SkipSpaceSkips(s, p + 1);
    }
  }

  lemma {:induction false} SkipSpaceIs(s: string, p: nat, q: nat)
    requires p <= q <= |s|
    requires forall k :: p <= k < q ==> IsSpace(s[k])
    requires q == |s| || !IsSpace(s[q])
    ensures SkipSpace(s, p) == q
    decreases q - p
  {
    if p < q {
      SkipSpaceIs(s, p + 1, q);
    }
  }

  /** The first position at or after `p` that holds `b`, or the end. */
  function IndexFrom(s: string, p: nat, b: char): (q: nat)
    requires p <= |s|
    ensures p <= q <= |s|
    decreases |s| - p
  {
    if p < |s| && s[p] != b then IndexFrom(s, p + 1, b) else p
  }

  lemma {:induction false} IndexFromFinds(s: string, p: nat, b: char)
    requires p <= |s|
    ensures forall k :: p <= k < IndexFrom(s, p, b) ==> s[k] != b
    ensures IndexFrom(s, p, b) < |s| ==> s[IndexFrom(s, p, b)] == b
    decreases |s| - p
  {
    if p < |s| && s[p] != b {
      IndexFromFinds(s, p + 1, b);
    }
  }

  lemma {:induction false} IndexFromIs(s: string, p: nat, b: char, q: nat)
    requires p <= q <= |s|
    requires forall k :: p <= k < q ==> s[k] != b
    requires q == |s| || s[q] == b
    ensures IndexFrom(s, p, b) == q
    decreases q - p
  {
    if p < q {
      IndexFromIs(s, p + 1, b, q);
    }
  }

  /** Decimal printing, as by %d. */
  function Decimal(n: nat): (s: string)
    ensures |s| > 0
    ensures forall k :: 0 <= k < |s| ==> '0' <= s[k] <= '9'
  {
    var last := ['0' + (n % 10) as char];
    if n < 10 then last else Decimal(n / 10) + last
  }

  /** The order of strings byte by byte: `<`, and what strings.Compare goes by. */
  predicate Lex(a: string, b: string) {
    b != "" && (a == "" || a[0] < b[0] || (a[0] == b[0] && Lex(a[1..], b[1..])))
  }

  lemma {:induction false} LexTransitive(a: string, b: string, c: string)
    requires Lex(a, b) && Lex(b, c)
    ensures Lex(a, c)
  {
    if a != "" && a[0] == b[0] == c[0] {
      LexTransitive(a[1..], b[1..], c[1..]);
    }
  }

  lemma {:induction false} LexTotal(a: string, b: string)
    ensures a != b ==> Lex(a, b) || Lex(b, a)
    ensures !(Lex(a, b) && Lex(b, a))
    ensures Lex(a, b) ==> a != b
  {
    if a != "" && b != "" && a[0] == b[0] {
      LexTotal(a[1..], b[1..]);
      assert a == [a[0]] + a[1..] && b == [b[0]] + b[1..];
    }
  }
}
