/** A request's text is parsed as the request it was written from (internal/runner/parser.go). */
module HttpRoundTrip {
  import opened Prelude
  import opened GoStrings
  import opened HttpText
  import opened Positions

  // ----- writing a request -----

  /** The words of the request line: a URL, a method and a URL, or these two and a version. */
  function LineText(words: seq<string>): string {
    if words == [] then "" else if |words| == 1 then words[0] else words[0] + " " + LineText(words[1..])
  }

  function FieldsText(fields: seq<Field>, nl: string): string {
    if fields == [] then "" else fields[0].name + ": " + fields[0].value + nl + FieldsText(fields[1..], nl)
  }

  function Text(words: seq<string>, fields: seq<Field>, body: string, nl: string): string {
    LineText(words) + nl + FieldsText(fields, nl) + nl + body
  }

  /** The two line ends that section 2.2 of RFC 9112 has a recipient accept. */
  predicate LineBreak(nl: string) {
    nl == "\n" || nl == "\r\n"
  }

  /**
   Without a byte that the parser takes for white space: 0x85 and 0xA0 are among these, also inside a longer UTF-8
   rune.
   */
  predicate Solid(w: string) {
    w == "" || (!IsSpace(w[0]) && Solid(w[1..]))
  }

  lemma {:induction false} SolidBytes(w: string)
    requires Solid(w)
    ensures forall i :: 0 <= i < |w| ==> !IsSpace(w[i])
  {
    if w != "" {
      SolidBytes(w[1..]);
      assert forall i :: 1 <= i < |w| ==> w[i] == w[1..][i - 1];
    }
  }

  /** On one line, without blanks in front, and without blanks or carriage returns at the end. */
  predicate ValueOk(v: string) {
    && '\n' !in v
    && (v != "" ==> !Blank(v[0]) && !Blank(v[|v| - 1]) && v[|v| - 1] != '\r')
  }

  /** A name without white space, and a value that fits. */
  predicate FieldOk(f: Field) {
    Solid(f.name) && ValueOk(f.value)
  }

  predicate WordOk(w: string) {
    w != "" && Solid(w)
  }

  predicate AllWordsOk(words: seq<string>) {
    words == [] || (WordOk(words[0]) && AllWordsOk(words[1..]))
  }

  predicate WordsOk(words: seq<string>) {
    1 <= |words| <= 3 && AllWordsOk(words)
  }

  predicate FieldsOk(fields: seq<Field>) {
    fields == [] || (FieldOk(fields[0]) && FieldsOk(fields[1..]))
  }

  // ----- the request line -----

  lemma {:induction false} WordEndIs(s: string, p: nat, q: nat)
    requires p <= q <= |s| && (forall k :: p <= k < q ==> !IsSpace(s[k])) && (q == |s| || IsSpace(s[q]))
    ensures WordEnd(s, p) == q
    decreases q - p
  {
    if p < q {
      WordEndIs(s, p + 1, q);
    }
  }

  lemma WordIs(s: string, p: nat, w: string)
    requires Stands(s, p, w) && Solid(w) && p + |w| < |s| && IsSpace(s[p + |w|])
    ensures WordEnd(s, p) == p + |w| && s[p..p + |w|] == w
  {
    StandsSlice(s, p, w);
    SolidBytes(w);
    forall k | p <= k < p + |w|
      ensures !IsSpace(s[k])
    {
      StandsByte(s, p, w, k - p);
    }
    WordEndIs(s, p, p + |w|);
  }

  lemma {:induction false} WordEndIsSpace(s: string, p: nat)
    requires p <= |s|
    ensures WordEnd(s, p) < |s| ==> IsSpace(s[WordEnd(s, p)])
    ensures forall k :: p <= k < WordEnd(s, p) ==> !IsSpace(s[k])
    decreases |s| - p
  {
    if p < |s| && !IsSpace(s[p]) {
      WordEndIsSpace(s, p + 1);
    }
  }

  lemma {:induction false} SolidIff(w: string)
    ensures Solid(w) <==> forall i :: 0 <= i < |w| ==> !IsSpace(w[i])
  {
    if w != "" {
      SolidIff(w[1..]);
      assert forall i :: 1 <= i < |w| ==> w[i] == w[1..][i - 1];
    }
  }

  /**
   The condition on words is exact: a method, a URL or a name is read as one word if and only if no byte of it counts
   as white space.
   */
  lemma OneWordIff(w: string, rest: string)
    ensures WordEnd(w + " " + rest, 0) == |w| <==> Solid(w)
  {
    var s := w + " " + rest;
    assert s[|w|] == ' ' && forall k :: 0 <= k < |w| ==> s[k] == w[k];
    SolidIff(w);
    if Solid(w) {
      WordEndIs(s, 0, |w|);
    } else {
      WordEndIsSpace(s, 0);
      var k :| 0 <= k < |w| && IsSpace(w[k]);
      assert IsSpace(s[k]) && WordEnd(s, 0) <= k;
    }
  }

  lemma BreakIs(s: string, p: nat, nl: string)
    requires LineBreak(nl) && Stands(s, p, nl)
    ensures p + |nl| <= |s| && IsSpace(s[p]) && SkipBlank(s, p) == p && WordEnd(s, p) == p
      && LineAfter(s, p) == Next(p + |nl|)
  {
    StandsSlice(s, p, nl);
    StandsByte(s, p, nl, 0);
    if |nl| == 2 {
      StandsByte(s, p, nl, 1);
    }
  }

  lemma OneWord(s: string, p: nat, q: nat, w: string, taken: seq<string>)
    requires p <= q && |taken| < 3 && WordOk(w) && Stands(s, q, w) && p <= |s| && SkipBlank(s, p) == q
    requires q + |w| < |s| && IsSpace(s[q + |w|])
    ensures TakeWords(s, p, taken) == TakeWords(s, q + |w|, taken + [w])
  {
    WordIs(s, q, w);
  }

  lemma WordStarts(s: string, q: nat, w: string)
    requires WordOk(w) && Stands(s, q, w)
    ensures q < |s| && SkipBlank(s, q) == q && (q > 0 && s[q - 1] == ' ' ==> SkipBlank(s, q - 1) == q)
  {
    StandsByte(s, q, w, 0);
  }

  lemma LineSplits(s: string, q: nat, words: seq<string>)
    requires |words| > 1 && Stands(s, q, LineText(words))
    ensures var e := q + |words[0]|;
      && Stands(s, q, words[0]) && e < |s| && s[e] == ' ' && Stands(s, e + 1, LineText(words[1..]))
      && q + |LineText(words)| == e + 1 + |LineText(words[1..])|
  {
    StandsSplit(s, q, words[0] + " ", LineText(words[1..]));
    StandsSplit(s, q, words[0], " ");
    StandsByte(s, q + |words[0]|, " ", 0);
  }

  lemma FirstWord(s: string, q: nat, words: seq<string>)
    requires words != [] && Stands(s, q, LineText(words))
    ensures Stands(s, q, words[0])
  {
    if |words| > 1 {
      LineSplits(s, q, words);
    }
  }

  lemma FirstAndRest<T>(ts: seq<T>)
    requires ts != []
    ensures [ts[0]] + ts[1..] == ts
  {
  }

  lemma LastWord(s: string, p: nat, q: nat, w: string, taken: seq<string>, nl: string)
    requires |taken| < 3 && WordOk(w) && LineBreak(nl) && p <= q <= |s| && SkipBlank(s, p) == q
    requires Stands(s, q, w) && Stands(s, q + |w|, nl)
    ensures TakeWords(s, p, taken) == Words(taken + [w], q + |w|)
  {
    BreakIs(s, q + |w|, nl);
    OneWord(s, p, q, w, taken);
  }

  lemma NextStarts(s: string, e: nat, words: seq<string>)
    requires words != [] && WordOk(words[0]) && e < |s| && s[e] == ' ' && Stands(s, e + 1, LineText(words))
    ensures e + 1 <= |s| && SkipBlank(s, e) == e + 1
  {
    FirstWord(s, e + 1, words);
    WordStarts(s, e + 1, words[0]);
  }

  /** Behind the first of several words the rest of the line follows. */
  lemma FirstIsTaken(s: string, p: nat, q: nat, words: seq<string>, taken: seq<string>)
    requires |words| > 1 && |taken| < 3 && WordOk(words[0]) && WordOk(words[1])
    requires p <= q <= |s| && SkipBlank(s, p) == q && Stands(s, q, LineText(words))
    ensures var e := q + |words[0]|;
      && e + 1 <= |s| && SkipBlank(s, e) == e + 1 && Stands(s, e + 1, LineText(words[1..]))
      && q + |LineText(words)| == e + 1 + |LineText(words[1..])|
      && TakeWords(s, p, taken) == TakeWords(s, e, taken + [words[0]])
  {
    LineSplits(s, q, words);
    OneWord(s, p, q, words[0], taken);
    NextStarts(s, q + |words[0]|, words[1..]);
  }

  lemma {:induction false} WordsAreTaken(
    s: string, p: nat, q: nat, words: seq<string>, taken: seq<string>, nl: string, end: nat)
    requires words != [] && |taken| + |words| <= 3 && AllWordsOk(words)
    requires p <= q <= |s| && SkipBlank(s, p) == q
    requires LineBreak(nl) && Stands(s, q, LineText(words)) && end == q + |LineText(words)| && Stands(s, end, nl)
    ensures TakeWords(s, p, taken) == Words(taken + words, end)
    decreases |words|
  {
    FirstAndRest(words);
    if |words| == 1 {
      LastWord(s, p, q, words[0], taken, nl);
    } else {
      var e := q + |words[0]|;
      FirstIsTaken(s, p, q, words, taken);
      WordsAreTaken(s, e, e + 1, words[1..], taken + [words[0]], nl, end);
      assert taken + [words[0]] + words[1..] == taken + ([words[0]] + words[1..]);
    }
  }

  // ----- the headers -----

  /** A header stands at `p`: name, colon and blank, value, line break. */
  ghost predicate HasField(s: string, p: nat, f: Field, nl: string) {
    var v := p + |f.name| + 2;
    Stands(s, p, f.name) && Stands(s, v - 2, ": ") && Stands(s, v, f.value) && Stands(s, v + |f.value|, nl)
  }

  function FieldLength(f: Field, nl: string): nat {
    |f.name| + 2 + |f.value| + |nl|
  }

  lemma FiveParts(s: string, p: nat, a: string, b: string, c: string, d: string, e: string)
    requires Stands(s, p, a + b + c + d + e)
    ensures Stands(s, p, a) && Stands(s, p + |a|, b) && Stands(s, p + |a| + |b|, c)
    ensures Stands(s, p + |a| + |b| + |c|, d) && Stands(s, p + |a| + |b| + |c| + |d|, e)
  {
    StandsSplit(s, p, a + b + c + d, e);
    StandsSplit(s, p, a + b + c, d);
    StandsSplit(s, p, a + b, c);
    StandsSplit(s, p, a, b);
  }

  lemma FieldsSplit(s: string, p: nat, fields: seq<Field>, nl: string)
    requires fields != [] && Stands(s, p, FieldsText(fields, nl))
    ensures HasField(s, p, fields[0], nl)
    ensures var q := p + FieldLength(fields[0], nl);
      Stands(s, q, FieldsText(fields[1..], nl)) && p + |FieldsText(fields, nl)| == q + |FieldsText(fields[1..], nl)|
  {
    FiveParts(s, p, fields[0].name, ": ", fields[0].value, nl, FieldsText(fields[1..], nl));
  }

  /** Perhaps with a carriage return behind it. */
  lemma TrimValue(v: string, line: string)
    requires ValueOk(v) && (line == v || (|line| == |v| + 1 && line[..|v|] == v && line[|v|] == '\r'))
    ensures TrimEnd(line) == v
  {
  }

  lemma NewlineIs(s: string, p: nat, v: string, nl: string)
    requires LineBreak(nl) && ValueOk(v) && Stands(s, p, v) && Stands(s, p + |v|, nl)
    ensures var n := p + |v| + |nl| - 1;
      n < |s| && IndexFrom(s, p, '\n') == n && TrimEnd(s[p..n]) == v
  {
    StandsSlice(s, p, v);
    StandsSlice(s, p + |v|, nl);
    var n := p + |v| + |nl| - 1;
    StandsByte(s, p + |v|, nl, 0);
    StandsByte(s, p + |v|, nl, |nl| - 1);
    forall k | p <= k < n
      ensures s[k] != '\n'
    {
      if k < p + |v| {
        StandsByte(s, p, v, k - p);
      }
    }
    IndexFromIs(s, p, '\n', n);
    assert s[p..n][..|v|] == s[p..p + |v|];
    TrimValue(v, s[p..n]);
  }

  lemma ValueStarts(s: string, p: nat, v: string, nl: string)
    requires LineBreak(nl) && ValueOk(v) && Stands(s, p, v) && Stands(s, p + |v|, nl)
    ensures p < |s| && !Blank(s[p])
  {
    if v == "" {
      StandsByte(s, p, nl, 0);
    } else {
      StandsByte(s, p, v, 0);
    }
  }

  lemma NameIs(s: string, p: nat, f: Field, nl: string)
    requires LineBreak(nl) && FieldOk(f) && HasField(s, p, f, nl)
    ensures var e := p + |f.name| + 1;
      && e < |s| && SkipBlank(s, p) == p && WordEnd(s, p) == e && s[p..e - 1] == f.name && s[e - 1] == ':'
      && s[e] == ' '
  {
    var e := p + |f.name| + 1;
    SolidBytes(f.name);
    StandsSlice(s, p, f.name);
    StandsByte(s, e - 1, ": ", 0);
    StandsByte(s, e - 1, ": ", 1);
    if f.name != "" {
      StandsByte(s, p, f.name, 0);
    }
    forall k | p <= k < e
      ensures !IsSpace(s[k])
    {
      if k < e - 1 {
        StandsByte(s, p, f.name, k - p);
      }
    }
    WordEndIs(s, p, e);
  }

  lemma ValueIs(s: string, e: nat, f: Field, nl: string)
    requires LineBreak(nl) && FieldOk(f) && e < |s| && s[e] == ' ' && Stands(s, e + 1, f.value)
      && Stands(s, e + 1 + |f.value|, nl)
    ensures ValueAt(s, e) == f.value && LineEnd(s, e) == e + 1 + |f.value| + |nl|
  {
    ValueStarts(s, e + 1, f.value, nl);
    NewlineIs(s, e + 1, f.value, nl);
    assert SkipBlank(s, e) == e + 1;
  }

  lemma {:induction false} SkipBlankSkips(s: string, p: nat)
    requires p <= |s|
    ensures SkipBlank(s, p) < |s| ==> !Blank(s[SkipBlank(s, p)])
    ensures forall k :: p <= k < SkipBlank(s, p) ==> Blank(s[k])
    decreases |s| - p
  {
    if p < |s| && Blank(s[p]) {
      SkipBlankSkips(s, p + 1);
    }
  }

  lemma {:induction false} TrimEndTrims(x: string)
    ensures TrimEnd(x) <= x
    ensures var v := TrimEnd(x); v != "" ==> !Blank(v[|v| - 1]) && v[|v| - 1] != '\r'
  {
    if x != "" && (Blank(x[|x| - 1]) || x[|x| - 1] == '\r') {
      TrimEndTrims(x[..|x| - 1]);
    }
  }

  /** Any value that is read from a line that ends is such a value. */
  lemma ValuesAreOk(s: string, e: nat, n: nat)
    requires e <= n < |s| && s[n] == '\n'
    ensures ValueOk(ValueAt(s, e))
  {
    var a := SkipBlank(s, e);
    SkipBlankSkips(s, e);
    var m := IndexFrom(s, a, '\n');
    IndexFromFinds(s, a, '\n');
    var line, v := s[a..m], ValueAt(s, e);
    TrimEndTrims(line);
    assert v == line[..|v|];
    if v != "" {
      assert v[0] == s[a];
    }
  }

  /**
   The condition on values is exact: what stands behind a header's name and a blank is read whole if and only if it
   is one.
   */
  lemma OneValueIff(v: string, nl: string, rest: string)
    requires LineBreak(nl)
    ensures ValueAt(" " + v + nl + rest, 0) == v <==> ValueOk(v)
  {
    var s := " " + v + nl + rest;
    assert s[0..|s|] == s;
    StandsSlice(s, 0, s);
    StandsSplit(s, 0, " " + v + nl, rest);
    StandsSplit(s, 0, " " + v, nl);
    StandsSplit(s, 0, " ", v);
    if ValueOk(v) {
      ValueIs(s, 0, Field("", v), nl);
    } else {
      StandsByte(s, 1 + |v|, nl, |nl| - 1);
      ValuesAreOk(s, 0, |v| + |nl|);
    }
  }

  lemma OneHeader(s: string, p: nat, f: Field, nl: string)
    requires LineBreak(nl) && FieldOk(f) && HasField(s, p, f, nl)
    ensures p <= |s| && HeaderAt(s, p) == More(f, p + FieldLength(f, nl))
  {
    NameIs(s, p, f, nl);
    ValueIs(s, p + |f.name| + 1, f, nl);
  }

  lemma RestAt(s: string, p: nat, fields: seq<Field>, nl: string)
    requires fields != [] && Stands(s, p, FieldsText(fields, nl))
    ensures var q := p + FieldLength(fields[0], nl);
      q <= |s| && Stands(s, q, FieldsText(fields[1..], nl))
        && p + |FieldsText(fields, nl)| == q + |FieldsText(fields[1..], nl)|
  {
    FieldsSplit(s, p, fields, nl);
  }

  lemma FirstField(s: string, p: nat, fields: seq<Field>, nl: string, end: nat)
    requires LineBreak(nl) && fields != [] && FieldOk(fields[0]) && Stands(s, p, FieldsText(fields, nl))
    requires var q := p + FieldLength(fields[0], nl); q <= |s| && FieldsAt(s, q) == Success(FieldPart(fields[1..], end))
    ensures p <= |s| && FieldsAt(s, p) == Success(FieldPart(fields, end))
  {
    FieldsSplit(s, p, fields, nl);
    OneHeader(s, p, fields[0], nl);
    FirstAndRest(fields);
  }

  lemma NoMoreFields(s: string, p: nat)
    requires p <= |s| && SkipBlank(s, p) == p && WordEnd(s, p) == p
    ensures FieldsAt(s, p) == Success(FieldPart([], p))
  {
  }

  lemma {:induction false} HeadersAreRead(s: string, p: nat, fields: seq<Field>, nl: string, end: nat)
    requires LineBreak(nl) && FieldsOk(fields) && p <= |s| && end == p + |FieldsText(fields, nl)|
    requires Stands(s, p, FieldsText(fields, nl)) && Stands(s, end, nl)
    ensures FieldsAt(s, p) == Success(FieldPart(fields, end))
    decreases |fields|
  {
    if fields == [] {
      BreakIs(s, p, nl);
      NoMoreFields(s, p);
    } else {
      RestAt(s, p, fields, nl);
      HeadersAreRead(s, p + FieldLength(fields[0], nl), fields[1..], nl, end);
      FirstField(s, p, fields, nl, end);
    }
  }

  // ----- the round trip -----

  /** What is where in the text of a request, whose first line ends at `p` and whose headers at `h`. */
  ghost predicate Parts(s: string, words: seq<string>, fields: seq<Field>, nl: string, p: nat, h: nat) {
    forall fold {:trigger Look(fold)} :: Look(fold) && fold == MessageParts ==>
      && p == |LineText(words)| && h == p + |nl| + |FieldsText(fields, nl)| && h + |nl| <= |s|
      && Stands(s, 0, LineText(words)) && Stands(s, p, nl) && Stands(s, p + |nl|, FieldsText(fields, nl))
      && Stands(s, h, nl)
  }

  lemma TextHasParts(words: seq<string>, fields: seq<Field>, body: string, nl: string, p: nat, h: nat)
    requires p == |LineText(words)| && h == p + |nl| + |FieldsText(fields, nl)|
    ensures var s := Text(words, fields, body, nl);
      Parts(s, words, fields, nl, p, h) && h + |nl| <= |s| && s[h + |nl|..] == body
  {
    var s, line, heads := Text(words, fields, body, nl), LineText(words), FieldsText(fields, nl);
    assert s[0..|s|] == s;
    StandsSlice(s, 0, s);
    StandsSplit(s, 0, line + nl + heads + nl, body);
    StandsSplit(s, 0, line + nl + heads, nl);
    StandsSplit(s, 0, line + nl, heads);
    StandsSplit(s, 0, line, nl);
    StandsSlice(s, h + |nl|, body);
  }

  lemma ParseIs(s: string, urls: string -> Url, words: seq<string>, p: nat, q: nat, fields: seq<Field>, h: nat, b: nat)
    requires words != [] && UrlHost(urls, UrlOf(words)).Success? && p <= |s| && q <= |s| && h <= |s| && b <= |s|
    requires TakeWords(s, 0, []) == Words(words, p) && LineAfter(s, p) == Next(q)
    requires FieldsAt(s, q) == Success(FieldPart(fields, h)) && LineAfter(s, h) == Next(b)
    ensures ParseText(s, urls) == Success(Meant(words, fields, s[b..], UrlHost(urls, UrlOf(words)).value))
  {
  }

  lemma {:induction false} LineIsRead(s: string, words: seq<string>, fields: seq<Field>, nl: string, p: nat, h: nat)
    requires WordsOk(words) && LineBreak(nl) && Parts(s, words, fields, nl, p, h)
    ensures TakeWords(s, 0, []) == Words(words, p) && p + |nl| <= |s| && LineAfter(s, p) == Next(p + |nl|)
  {
    assert Look(MessageParts);
    BreakIs(s, p, nl);
    FirstWord(s, 0, words);
    WordStarts(s, 0, words[0]);
    WordsAreTaken(s, 0, 0, words, [], nl, p);
    assert [] + words == words;
  }

  lemma HeadersPart(s: string, words: seq<string>, fields: seq<Field>, nl: string, p: nat, q: nat, h: nat)
    requires LineBreak(nl) && FieldsOk(fields) && Parts(s, words, fields, nl, p, h) && q == p + |nl|
    ensures q <= |s| && FieldsAt(s, q) == Success(FieldPart(fields, h))
  {
    assert q <= |s| && h == q + |FieldsText(fields, nl)| && Stands(s, q, FieldsText(fields, nl))
      && Stands(s, h, nl) by {
      assert Look(MessageParts);
    }
    HeadersAreRead(s, q, fields, nl, h);
  }

  lemma EmptyLine(s: string, words: seq<string>, fields: seq<Field>, nl: string, p: nat, h: nat)
    requires LineBreak(nl) && Parts(s, words, fields, nl, p, h)
    ensures h + |nl| <= |s| && LineAfter(s, h) == Next(h + |nl|)
  {
    assert Look(MessageParts);
    BreakIs(s, h, nl);
  }

  lemma PartsAreParsed(
    s: string, words: seq<string>, fields: seq<Field>, nl: string, urls: string -> Url, p: nat, h: nat)
    requires WordsOk(words) && LineBreak(nl) && FieldsOk(fields) && UrlHost(urls, UrlOf(words)).Success?
    requires Parts(s, words, fields, nl, p, h) && h + |nl| <= |s|
    ensures ParseText(s, urls) == Success(Meant(words, fields, s[h + |nl|..], UrlHost(urls, UrlOf(words)).value))
  {
    HeadersPart(s, words, fields, nl, p, p + |nl|, h);
    EmptyLine(s, words, fields, nl, p, h);
    LineIsRead(s, words, fields, nl, p, h);
    ParseIs(s, urls, words, p, p + |nl|, fields, h, h + |nl|);
  }

  /**
   A request written with either line break is parsed as the request it was: method, URL, headers in order
   and body, byte for byte.
   */
  lemma {:induction false} TextIsParsed(
    words: seq<string>, fields: seq<Field>, body: string, nl: string, urls: string -> Url)
    requires WordsOk(words) && LineBreak(nl) && FieldsOk(fields)
    requires UrlHost(urls, UrlOf(words)).Success?
    ensures ParseText(Text(words, fields, body, nl), urls) ==
      Success(Meant(words, fields, body, UrlHost(urls, UrlOf(words)).value))
  {
    var p := |LineText(words)|;
    var h := p + |nl| + |FieldsText(fields, nl)|;
    TextHasParts(words, fields, body, nl, p, h);
    PartsAreParsed(Text(words, fields, body, nl), words, fields, nl, urls, p, h);
  }

  /** The form with carriage returns means the same request. */
  lemma LineBreaksDoNotMatter(words: seq<string>, fields: seq<Field>, body: string, urls: string -> Url)
    requires WordsOk(words) && FieldsOk(fields)
    requires UrlHost(urls, UrlOf(words)).Success?
    ensures ParseText(Text(words, fields, body, "\r\n"), urls) == ParseText(Text(words, fields, body, "\n"), urls)
  {
    TextIsParsed(words, fields, body, "\r\n", urls);
    TextIsParsed(words, fields, body, "\n", urls);
  }

  // ----- what the headers amount to -----

  predicate IsHost(f: Field) {
    EqualFold(f.name, "host")
  }

  predicate IsAgent(f: Field) {
    !IsHost(f) && EqualFold(f.name, "user-agent")
  }

  /** The values of an ordinary header, in the order they are written in. */
  function ValuesFor(fields: seq<Field>, key: string): seq<string> {
    if fields == [] then []
    else
      var f := fields[0];
      (if !IsHost(f) && !IsAgent(f) && Canonical(f.name) == key then [f.value] else []) + ValuesFor(fields[1..], key)
  }

  function ValuesIn(header: map<string, seq<string>>, key: string): seq<string> {
    if key in header then header[key] else []
  }

  lemma {:induction false} HeadersKeepOrder(hs: Headers, fields: seq<Field>, key: string)
    requires forall i :: 0 <= i < |fields| && IsAgent(fields[i]) ==> Canonical(fields[i].name) != key
    ensures ValuesIn(PutAll(hs, fields).header, key) == ValuesIn(hs.header, key) + ValuesFor(fields, key)
    decreases |fields|
  {
    if fields != [] {
      var f := fields[0];
      var hs' := Put(hs, f.name, f.value);
      assert !(IsAgent(f) && Canonical(f.name) == key);
      HeadersKeepOrder(hs', fields[1..], key);
      var one: seq<string> := if !IsHost(f) && !IsAgent(f) && Canonical(f.name) == key then [f.value] else [];
      assert ValuesIn(hs'.header, key) == ValuesIn(hs.header, key) + one;
      assert ValuesIn(hs.header, key) + one + ValuesFor(fields[1..], key) ==
        ValuesIn(hs.header, key) + (one + ValuesFor(fields[1..], key));
    }
  }

  /** Without a Host header it is the URL's. */
  lemma {:induction false} NoHost(hs: Headers, fields: seq<Field>)
    requires forall i :: 0 <= i < |fields| ==> !IsHost(fields[i])
    ensures PutAll(hs, fields).host == hs.host
    decreases |fields|
  {
    if fields != [] {
      assert !IsHost(fields[0]);
      NoHost(Put(hs, fields[0].name, fields[0].value), fields[1..]);
    }
  }

  /** The last Host header names the host. */
  lemma {:induction false} LastHostWins(hs: Headers, fields: seq<Field>, k: nat)
    requires k < |fields| && IsHost(fields[k]) && forall i :: k < i < |fields| ==> !IsHost(fields[i])
    ensures PutAll(hs, fields).host == fields[k].value
    decreases |fields|
  {
    var hs' := Put(hs, fields[0].name, fields[0].value);
    if k > 0 {
      LastHostWins(hs', fields[1..], k - 1);
    } else {
      NoHost(hs', fields[1..]);
    }
  }

  lemma {:induction false} NothingMore(hs: Headers, fields: seq<Field>, key: string)
    requires forall i :: 0 <= i < |fields| && !IsHost(fields[i]) ==> Canonical(fields[i].name) != key
    ensures ValuesIn(PutAll(hs, fields).header, key) == ValuesIn(hs.header, key)
    decreases |fields|
  {
    if fields != [] {
      assert IsHost(fields[0]) || Canonical(fields[0].name) != key;
      NothingMore(Put(hs, fields[0].name, fields[0].value), fields[1..], key);
    }
  }

  /** The last User-Agent header replaces the parser's own and any before it. */
  lemma {:induction false} LastAgentWins(hs: Headers, fields: seq<Field>, k: nat)
    requires k < |fields| && IsAgent(fields[k])
    requires forall i :: k < i < |fields| && !IsHost(fields[i]) ==>
      Canonical(fields[i].name) != Canonical(fields[k].name)
    ensures ValuesIn(PutAll(hs, fields).header, Canonical(fields[k].name)) == [fields[k].value]
    decreases |fields|
  {
    var hs', key := Put(hs, fields[0].name, fields[0].value), Canonical(fields[k].name);
    if k > 0 {
      LastAgentWins(hs', fields[1..], k - 1);
    } else {
      NothingMore(hs', fields[1..], key);
    }
  }
}
