/** What a parsed request holds, part by part (internal/runner/parser.go). */
module HttpMeaning {
  import opened Prelude
  import opened HttpText
  import opened HttpRoundTrip

  // ----- names of headers -----

  /** Names that differ in the case of ASCII letters only. */
  predicate SameLetters(a: string, b: string) {
    |a| == |b| && forall i :: 0 <= i < |a| ==> Lower(a[i]) == Lower(b[i])
  }

  predicate SmallLetter(c: char) {
    'a' <= c <= 'z'
  }

  predicate BigLetter(c: char) {
    'A' <= c <= 'Z'
  }

  predicate AllToken(name: string) {
    forall i :: 0 <= i < |name| ==> TokenByte(name[i])
  }

  /** A byte of a name as it is spelt behind a dash, or at the start, and elsewhere. */
  predicate Spelt(was: char, c: char, first: bool) {
    Lower(was) == Lower(c) && (if first then !SmallLetter(c) else !BigLetter(c))
  }

  /** Whether a letter there is the first of a part of the name. */
  predicate First(name: string, i: nat, upper: bool)
    requires i < |name|
  {
    if i == 0 then upper else name[i - 1] == '-'
  }

  lemma {:induction false} CapitalizeSpells(name: string, upper: bool)
    ensures |Capitalize(name, upper)| == |name|
    ensures forall i :: 0 <= i < |name| ==> Spelt(name[i], Capitalize(name, upper)[i], First(name, i, upper))
  {
    if name != "" {
      var rest, up := name[1..], name[0] == '-';
      CapitalizeSpells(rest, up);
      var all := Capitalize(name, upper);
      forall i | 0 <= i < |name|
        ensures Spelt(name[i], all[i], First(name, i, upper))
      {
        if i > 0 {
          assert Spelt(rest[i - 1], Capitalize(rest, up)[i - 1], First(rest, i - 1, up));
          assert rest[i - 1] == name[i] && all[i] == Capitalize(rest, up)[i - 1];
          assert First(rest, i - 1, up) == First(name, i, upper);
        }
      }
    }
  }

  /**
   The name a header is kept under: a name made of token bytes has its first letter, and each behind a dash, large
   and all others small.  Any other name is kept as it is.
   */
  lemma CanonicalIs(name: string)
    ensures AllToken(name) ==> SameLetters(Canonical(name), name)
    ensures AllToken(name) ==>
      forall i :: 0 <= i < |name| ==> Spelt(name[i], Canonical(name)[i], First(name, i, true))
    ensures !AllToken(name) ==> Canonical(name) == name
  {
    CapitalizeSpells(name, true);
  }

  /** Spelling names with other letters makes no difference. */
  lemma {:induction false} CapitalizeForgetsCase(a: string, b: string, upper: bool)
    requires SameLetters(a, b)
    ensures Capitalize(a, upper) == Capitalize(b, upper)
    decreases |a|
  {
    if a != "" {
      assert Lower(a[0]) == Lower(b[0]);
      assert forall i :: 0 <= i < |a| - 1 ==> a[1..][i] == a[i + 1] && b[1..][i] == b[i + 1];
      CapitalizeForgetsCase(a[1..], b[1..], a[0] == '-');
    }
  }

  lemma CaseDoesNotMatter(a: string, b: string)
    requires AllToken(a) && AllToken(b)
    ensures Canonical(a) == Canonical(b) <==> SameLetters(a, b)
  {
    CanonicalIs(a);
    CanonicalIs(b);
    if SameLetters(a, b) {
      CapitalizeForgetsCase(a, b, true);
    }
  }

  predicate NoLongS(name: string) {
    forall i :: 0 <= i < |name| ==> name[i] != '\U{C5}'
  }

  lemma {:induction false} EqualFoldIff(name: string, lower: string)
    requires NoLongS(name) && forall i :: 0 <= i < |lower| ==> Lower(lower[i]) == lower[i]
    ensures EqualFold(name, lower) <==> SameLetters(name, lower)
    decreases |name|
  {
    if name != "" && lower != "" {
      assert forall i :: 0 <= i < |name| - 1 ==> name[1..][i] == name[i + 1];
      assert forall i :: 0 <= i < |lower| - 1 ==> lower[1..][i] == lower[i + 1];
      if Lower(name[0]) == lower[0] {
        EqualFoldIff(name[1..], lower[1..]);
        if SameLetters(name[1..], lower[1..]) {
          forall i | 0 <= i < |name|
            ensures Lower(name[i]) == Lower(lower[i])
          {
            assert i > 0 ==> name[i] == name[1..][i - 1] && lower[i] == lower[1..][i - 1];
          }
        }
      }
    }
  }

  // ----- the parts of a request -----

  /** A URL alone is asked for by GET; otherwise the method stands before it, and a version may follow. */
  predicate Asks(words: seq<string>, method_: string, url: string) {
    || (words == [url] && method_ == "GET")
    || ((|words| == 2 || |words| == 3) && words[0] == method_ && words[1] == url)
  }

  predicate AllSmall(lower: string) {
    forall i :: 0 <= i < |lower| ==> Lower(lower[i]) == lower[i]
  }

  /** A header kept under a name is one that is compared with it. */
  lemma KeptUnder(name: string, canonical: string, lower: string)
    requires Canonical(name) == canonical && AllToken(canonical)
    requires SameLetters(canonical, lower) && AllSmall(lower)
    ensures EqualFold(name, lower)
  {
    CanonicalIs(name);
    assert SameLetters(name, canonical);
    forall i | 0 <= i < |name|
      ensures Lower(name[i]) == Lower(lower[i]) && name[i] != '\U{C5}'
    {
      assert TokenByte(name[i]) && Lower(canonical[i]) == Lower(name[i]);
    }
    EqualFoldIff(name, lower);
  }

  lemma AgentSpelt()
    ensures AllToken("User-Agent") && SameLetters("User-Agent", "user-agent") && AllSmall("user-agent")
  {
  }

  /** Each header that is kept under the agent's name is one. */
  lemma AgentsName(f: Field)
    requires !IsHost(f) && !IsAgent(f)
    ensures Canonical(f.name) != "User-Agent"
  {
    AgentSpelt();
    if Canonical(f.name) == "User-Agent" {
      KeptUnder(f.name, "User-Agent", "user-agent");
    }
  }

  lemma {:induction false} NoAgent(hs: Headers, fields: seq<Field>)
    requires forall i :: 0 <= i < |fields| ==> !IsAgent(fields[i])
    ensures ValuesIn(PutAll(hs, fields).header, "User-Agent") == ValuesIn(hs.header, "User-Agent")
  {
    forall i | 0 <= i < |fields| && !IsHost(fields[i])
      ensures Canonical(fields[i].name) != "User-Agent"
    {
      AgentsName(fields[i]);
    }
    NothingMore(hs, fields, "User-Agent");
  }

  predicate LastHost(fields: seq<Field>, k: nat) {
    k < |fields| && IsHost(fields[k]) && forall i :: k < i < |fields| ==> !IsHost(fields[i])
  }

  predicate NoneIsHost(fields: seq<Field>) {
    forall i :: 0 <= i < |fields| ==> !IsHost(fields[i])
  }

  predicate NoneIsAgent(fields: seq<Field>, key: string) {
    forall i :: 0 <= i < |fields| && IsAgent(fields[i]) ==> Canonical(fields[i].name) != key
  }

  /** What is read from a request that was written: method, URL and body are the ones written. */
  lemma PartsAreRead(
    words: seq<string>, method_: string, url: string, fields: seq<Field>, body: string, nl: string, urls: string -> Url)
    requires WordsOk(words) && Asks(words, method_, url) && LineBreak(nl) && FieldsOk(fields)
    requires UrlHost(urls, url).Success?
    ensures var r := ParseText(Text(words, fields, body, nl), urls);
      && r.Success? && r.value.method_ == method_ && r.value.url == url && r.value.body == body
      && var hs := PutAll(Headers(UrlHost(urls, url).value, map["User-Agent" := [USER_AGENT]]), fields);
         r.value.host == hs.host && r.value.header == hs.header
  {
    assert UrlOf(words) == url && MethodOf(words) == method_;
    TextIsParsed(words, fields, body, nl, urls);
  }

  /** The host is the last Host header's value, or the URL's if there is none. */
  lemma HostIsRead(
    words: seq<string>, method_: string, url: string, fields: seq<Field>, body: string, nl: string, urls: string -> Url)
    requires WordsOk(words) && Asks(words, method_, url) && LineBreak(nl) && FieldsOk(fields)
    requires UrlHost(urls, url).Success?
    ensures var r := ParseText(Text(words, fields, body, nl), urls);
      r.Success? && var host := r.value.host;
      && (forall k: nat :: LastHost(fields, k) ==> host == fields[k].value)
      && (NoneIsHost(fields) ==> urls(url) == Absolute(host))
  {
    PartsAreRead(words, method_, url, fields, body, nl, urls);
    var hs := Headers(UrlHost(urls, url).value, map["User-Agent" := [USER_AGENT]]);
    forall k: nat | LastHost(fields, k)
      ensures PutAll(hs, fields).host == fields[k].value
    {
      LastHostWins(hs, fields, k);
    }
    if NoneIsHost(fields) {
      NoHost(hs, fields);
    }
  }

  /**
   Each header has the values that were written under its name, in their order.  The agent is the tool's own unless
   one was written.
   */
  lemma HeadersAreKept(
    words: seq<string>, method_: string, url: string, fields: seq<Field>, body: string, nl: string,
    urls: string -> Url, key: string)
    requires WordsOk(words) && Asks(words, method_, url) && LineBreak(nl) && FieldsOk(fields)
    requires UrlHost(urls, url).Success?
    ensures var r := ParseText(Text(words, fields, body, nl), urls);
      r.Success? && var header := r.value.header;
      && (key != "User-Agent" && NoneIsAgent(fields, key) ==> ValuesIn(header, key) == ValuesFor(fields, key))
      && ((forall i :: 0 <= i < |fields| ==> !IsAgent(fields[i])) ==> ValuesIn(header, "User-Agent") == [USER_AGENT])
  {
    PartsAreRead(words, method_, url, fields, body, nl, urls);
    var hs := Headers(UrlHost(urls, url).value, map["User-Agent" := [USER_AGENT]]);
    if NoneIsAgent(fields, key) {
      HeadersKeepOrder(hs, fields, key);
    }
    if forall i :: 0 <= i < |fields| ==> !IsAgent(fields[i]) {
      NoAgent(hs, fields);
    }
  }

  // ----- the ends of lines -----

  lemma {:induction false} FirstNotBlank(s: string, p: nat)
    requires p <= |s|
    ensures forall k :: p <= k < SkipBlank(s, p) ==> s[k] == ' ' || s[k] == '\t'
    ensures SkipBlank(s, p) < |s| ==> s[SkipBlank(s, p)] != ' ' && s[SkipBlank(s, p)] != '\t'
    decreases |s| - p
  {
    if p < |s| && Blank(s[p]) {
      FirstNotBlank(s, p + 1);
    }
  }

  /** A line ends in a newline, with or without a carriage return before it; the text may end there too. */
  lemma LineEndsIff(s: string, p: nat, q: nat)
    requires p <= |s|
    ensures var a := SkipBlank(s, p);
      && (LineAfter(s, p) == Next(q) <==> q <= |s| && a < q && (s[a..q] == "\n" || s[a..q] == "\r\n"))
      && (LineAfter(s, p) == Eof <==> s[a..] == "" || s[a..] == "\r")
  {
    var a := SkipBlank(s, p);
    assert a < q <= |s| ==> |s[a..q]| == q - a && s[a..q][0] == s[a];
    assert a + 1 < q <= |s| ==> s[a..q][1] == s[a + 1];
    assert a < |s| ==> s[a..][0] == s[a];
  }

  // ----- texts that are no requests -----

  /** A text needs a word on its first line, and something behind it; behind three words the line has to end. */
  lemma FirstLineErrors(s: string, urls: string -> Url)
    ensures var a := SkipBlank(s, 0);
      && (WordEnd(s, a) == |s| ==> ParseText(s, urls) == Failure(UnexpectedEOF))
      && (a < |s| && WordEnd(s, a) == a ==> ParseText(s, urls) == Failure(EmptyRequestLine))
    ensures var ws := TakeWords(s, 0, []);
      ws.Words? && ws.words != [] ==>
        var url := ws.words[if |ws.words| == 1 then 0 else 1];
        && (UrlHost(urls, url).Failure? ==> ParseText(s, urls) == Failure(BadUrl))
        && (UrlHost(urls, url).Success? && LineAfter(s, ws.next).NoLine? ==>
              ParseText(s, urls) == Failure(ExpectedNextLine))
  {
  }

  /** A header whose name does not end in a colon, or that the text ends with before its value, is an error. */
  lemma HeaderErrors(s: string, p: nat)
    requires p <= |s|
    ensures var a := SkipBlank(s, p); var e := WordEnd(s, a);
      && (a < e == |s| ==> FieldsAt(s, p) == Failure(UnexpectedEOF))
      && (a < e < |s| && s[e - 1] != ':' ==> FieldsAt(s, p) == Failure(MalformedHeader))
  {
  }
}
