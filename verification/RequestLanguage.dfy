/**
 The other direction: every well-formed request's text is accepted, so the parser's language is exactly
 the grammar, and what every reachable parse keeps.
 */
module RequestLanguage {
  import opened Decimal
  import opened RequestAlphabet
  import opened RequestParser
  import opened RequestGrammar

  // ----- completeness: every request's text is accepted

  /** Feeding s takes all of it and moves the parse from p to q. */
  predicate Passes(p: Parse, s: string, q: Parse)
    requires LastHeaderThere(p)
  {
    Feed(p, s) == Outcome(q, Indeterminate, |s|)
  }

  lemma PassesBoth(p: Parse, a: string, q: Parse, b: string, r: Parse)
    requires LastHeaderThere(p) && LastHeaderThere(q) && Passes(p, a, q) && Passes(q, b, r)
    ensures Passes(p, a + b, r)
  {
    FeedSplits(p, a, b);
  }

  lemma PassesOne(p: Parse, c: char, q: Parse)
    requires LastHeaderThere(p) && Next(p, c) == (q, Indeterminate)
    ensures Passes(p, [c], q)
  {
    assert [c][1..] == "";
  }

  lemma PassesNone(p: Parse)
    requires LastHeaderThere(p)
    ensures Passes(p, "", p)
  {
  }

  lemma VerbChar(st: State, req: Request, c: char)
    requires (st == MethodStart || st == Method) && TokenLetter(c)
    ensures Passes(Parse(st, req), [c], Parse(Method, req.(verb := req.verb + [c])))
  {
    PassesOne(Parse(st, req), c, Parse(Method, req.(verb := req.verb + [c])));
  }

  lemma UriChar(req: Request, c: char)
    requires !Control(c) && c != ' '
    ensures Passes(Parse(Uri, req), [c], Parse(Uri, req.(uri := req.uri + [c])))
  {
    PassesOne(Parse(Uri, req), c, Parse(Uri, req.(uri := req.uri + [c])));
  }

  lemma Cons(s: string)
    requires s != ""
    ensures [s[0]] + s[1..] == s
    ensures forall x: string :: (x + [s[0]]) + s[1..] == x + s
  {
    forall x: string
      ensures (x + [s[0]]) + s[1..] == x + s
    {
      assert x + s == x + ([s[0]] + s[1..]);
    }
  }

  lemma {:induction false} PassesVerb(req: Request, s: string)
    requires AllTokens(s)
    ensures Passes(Parse(Method, req), s, Parse(Method, req.(verb := req.verb + s)))
    decreases |s|
  {
    if s == "" {
      assert req.verb + s == req.verb;
    } else {
      var next := req.(verb := req.verb + [s[0]]);
      VerbChar(Method, req, s[0]);
      PassesVerb(next, s[1..]);
      Cons(s);
      PassesBoth(Parse(Method, req), [s[0]], Parse(Method, next), s[1..], Parse(Method, req.(verb := req.verb + s)));
    }
  }

  lemma {:induction false} PassesUri(req: Request, s: string)
    requires IsUri(s)
    ensures Passes(Parse(Uri, req), s, Parse(Uri, req.(uri := req.uri + s)))
    decreases |s|
  {
    if s == "" {
      assert req.uri + s == req.uri;
    } else {
      var next := req.(uri := req.uri + [s[0]]);
      assert s[0] in s;
      UriChar(req, s[0]);
      PassesUri(next, s[1..]);
      Cons(s);
      PassesBoth(Parse(Uri, req), [s[0]], Parse(Uri, next), s[1..], Parse(Uri, req.(uri := req.uri + s)));
    }
  }

  lemma DigitsSnoc(s: string)
    requires AllDigits(s) && s != ""
    ensures var init, c := s[..|s| - 1], s[|s| - 1];
            s == init + [c] && IsDigit(c) && AllDigits(init) && FromDecimal(s) == FromDecimal(init) * 10 + DigitValue(c)
  {
  }

  lemma MajorDigit(st: State, req: Request, c: char)
    requires (st == MajorStart || st == Major) && IsDigit(c)
    ensures Passes(Parse(st, req), [c], Parse(Major, req.(major := req.major * 10 + DigitValue(c))))
  {
    PassesOne(Parse(st, req), c, Parse(Major, req.(major := req.major * 10 + DigitValue(c))));
  }

  /** One more digit after some. */
  lemma MajorMore(req: Request, init: string, v: nat, c: char)
    requires Passes(Parse(MajorStart, req), init, Parse(Major, req.(major := v))) && IsDigit(c)
    ensures Passes(Parse(MajorStart, req), init + [c], Parse(Major, req.(major := v * 10 + DigitValue(c))))
  {
    var m, last := Parse(Major, req.(major := v)), Parse(Major, req.(major := v * 10 + DigitValue(c)));
    MajorDigit(Major, m.req, c);
    PassesBoth(Parse(MajorStart, req), init, m, [c], last);
  }

  lemma MajorFirst(req: Request, s: string, c: char)
    requires s == [c] && IsDigit(c) && req.major == 0
    ensures Passes(Parse(MajorStart, req), s, Parse(Major, req.(major := FromDecimal(s))))
  {
    MajorDigit(MajorStart, req, c);
    DigitsSnoc(s);
    assert s[..0] == "" && FromDecimal("") == 0;
  }

  lemma {:induction false} PassesMajor(req: Request, s: string)
    requires AllDigits(s) && s != "" && req.major == 0
    ensures Passes(Parse(MajorStart, req), s, Parse(Major, req.(major := FromDecimal(s))))
    decreases |s|
  {
    var init, c := s[..|s| - 1], s[|s| - 1];
    DigitsSnoc(s);
    if init == "" {
      MajorFirst(req, s, c);
    } else {
      PassesMajor(req, init);
      MajorMore(req, init, FromDecimal(init), c);
    }
  }

  lemma MinorDigit(st: State, req: Request, c: char)
    requires (st == MinorStart || st == Minor) && IsDigit(c)
    ensures Passes(Parse(st, req), [c], Parse(Minor, req.(minor := req.minor * 10 + DigitValue(c))))
  {
    PassesOne(Parse(st, req), c, Parse(Minor, req.(minor := req.minor * 10 + DigitValue(c))));
  }

  /** One more digit after some. */
  lemma MinorMore(req: Request, init: string, v: nat, c: char)
    requires Passes(Parse(MinorStart, req), init, Parse(Minor, req.(minor := v))) && IsDigit(c)
    ensures Passes(Parse(MinorStart, req), init + [c], Parse(Minor, req.(minor := v * 10 + DigitValue(c))))
  {
    var m, last := Parse(Minor, req.(minor := v)), Parse(Minor, req.(minor := v * 10 + DigitValue(c)));
    MinorDigit(Minor, m.req, c);
    PassesBoth(Parse(MinorStart, req), init, m, [c], last);
  }

  lemma MinorFirst(req: Request, s: string, c: char)
    requires s == [c] && IsDigit(c) && req.minor == 0
    ensures Passes(Parse(MinorStart, req), s, Parse(Minor, req.(minor := FromDecimal(s))))
  {
    MinorDigit(MinorStart, req, c);
    DigitsSnoc(s);
    assert s[..0] == "" && FromDecimal("") == 0;
  }

  lemma {:induction false} PassesMinor(req: Request, s: string)
    requires AllDigits(s) && s != "" && req.minor == 0
    ensures Passes(Parse(MinorStart, req), s, Parse(Minor, req.(minor := FromDecimal(s))))
    decreases |s|
  {
    var init, c := s[..|s| - 1], s[|s| - 1];
    DigitsSnoc(s);
    if init == "" {
      MinorFirst(req, s, c);
    } else {
      PassesMinor(req, init);
      MinorMore(req, init, FromDecimal(init), c);
    }
  }

  /** Two characters in a row. */
  lemma PassesTwo(p: Parse, c: char, q: Parse, d: char, r: Parse)
    requires LastHeaderThere(p) && LastHeaderThere(q)
    requires Next(p, c) == (q, Indeterminate) && Next(q, d) == (r, Indeterminate)
    ensures Passes(p, [c, d], r)
  {
    PassesOne(p, c, q);
    PassesOne(q, d, r);
    PassesBoth(p, [c], q, [d], r);
    assert [c] + [d] == [c, d];
  }

  lemma PassesHttp(req: Request)
    ensures Passes(Parse(VersionH, req), "HT" + "TP", Parse(VersionSlash, req))
  {
    PassesTwo(Parse(VersionH, req), 'H', Parse(VersionT1, req), 'T', Parse(VersionT2, req));
    PassesTwo(Parse(VersionT2, req), 'T', Parse(VersionP, req), 'P', Parse(VersionSlash, req));
    PassesBoth(Parse(VersionH, req), "HT", Parse(VersionT2, req), "TP", Parse(VersionSlash, req));
  }

  lemma PassesProtocol(req: Request)
    ensures Passes(Parse(VersionH, req), "HTTP/", Parse(MajorStart, req.(major := 0, minor := 0)))
  {
    var zero := req.(major := 0, minor := 0);
    PassesHttp(req);
    PassesOne(Parse(VersionSlash, req), '/', Parse(MajorStart, zero));
    PassesBoth(Parse(VersionH, req), "HT" + "TP", Parse(VersionSlash, req), "/", Parse(MajorStart, zero));
    assert "HT" + "TP" + "/" == "HTTP/";
  }

  // ----- header lines

  function With(s: State, req: Request, headers: seq<Header>): Parse {
    Parse(s, req.(headers := headers))
  }

  lemma NameChar(req: Request, hs: seq<Header>, name: string, c: char)
    requires TokenLetter(c)
    ensures Passes(With(HeaderName, req, hs + [Header(name, "")]), [c],
            With(HeaderName, req, hs + [Header(name + [c], "")]))
  {
    assert AddToName(hs + [Header(name, "")], c) == hs + [Header(name + [c], "")];
    PassesOne(With(HeaderName, req, hs + [Header(name, "")]), c, With(HeaderName, req, hs + [Header(name + [c], "")]));
  }

  lemma {:induction false} PassesName(req: Request, hs: seq<Header>, name: string, s: string)
    requires AllTokens(s)
    ensures Passes(With(HeaderName, req, hs + [Header(name, "")]), s,
            With(HeaderName, req, hs + [Header(name + s, "")]))
    decreases |s|
  {
    if s == "" {
      assert name + s == name;
    } else {
      NameChar(req, hs, name, s[0]);
      PassesName(req, hs, name + [s[0]], s[1..]);
      Cons(s);
      PassesBoth(With(HeaderName, req, hs + [Header(name, "")]), [s[0]],
                 With(HeaderName, req, hs + [Header(name + [s[0]], "")]), s[1..],
                 With(HeaderName, req, hs + [Header(name + s, "")]));
    }
  }

  /** The last header's value continued. */
  function Continued(hs: seq<Header>, s: string): seq<Header>
    requires hs != []
  {
    var last := hs[|hs| - 1];
    hs[|hs| - 1 := last.(value := last.value + s)]
  }

  lemma ValueChar(st: State, req: Request, hs: seq<Header>, c: char)
    requires hs != [] && !Control(c)
    requires st == HeaderValue || (st == HeaderLws && !Blank(c))
    ensures Passes(With(st, req, hs), [c], With(HeaderValue, req, Continued(hs, [c])))
  {
    PassesOne(With(st, req, hs), c, With(HeaderValue, req, Continued(hs, [c])));
  }

  lemma ContinuedTwice(hs: seq<Header>, a: string, b: string)
    requires hs != []
    ensures Continued(Continued(hs, a), b) == Continued(hs, a + b)
    ensures Continued(hs, "") == hs
  {
    var v := hs[|hs| - 1].value;
    assert (v + a) + b == v + (a + b);
    assert v + "" == v;
  }

  lemma {:induction false} PassesValue(req: Request, hs: seq<Header>, s: string)
    requires hs != [] && NoCtl(s)
    ensures Passes(With(HeaderValue, req, hs), s, With(HeaderValue, req, Continued(hs, s)))
    decreases |s|
  {
    if s == "" {
      ContinuedTwice(hs, "", "");
    } else {
      var next := Continued(hs, [s[0]]);
      ValueChar(HeaderValue, req, hs, s[0]);
      PassesValue(req, next, s[1..]);
      ContinuedTwice(hs, [s[0]], s[1..]);
      Cons(s);
      PassesBoth(With(HeaderValue, req, hs), [s[0]], With(HeaderValue, req, next), s[1..],
          With(HeaderValue, req, Continued(hs, s)));
    }
  }

  lemma {:induction false} PassesBlanks(req: Request, hs: seq<Header>, s: string)
    requires hs != [] && AllBlanks(s)
    ensures Passes(With(HeaderLws, req, hs), s, With(HeaderLws, req, hs))
    decreases |s|
  {
    if s != "" {
      PassesOne(With(HeaderLws, req, hs), s[0], With(HeaderLws, req, hs));
      PassesBlanks(req, hs, s[1..]);
      Cons(s);
      PassesBoth(With(HeaderLws, req, hs), [s[0]], With(HeaderLws, req, hs), s[1..], With(HeaderLws, req, hs));
    }
  }

  lemma PassesEnd(st: State, req: Request, hs: seq<Header>)
    requires hs != [] && (st == HeaderValue || st == HeaderLws)
    ensures Passes(With(st, req, hs), "\r\n", With(HeaderLineStart, req, hs))
  {
    PassesTwo(With(st, req, hs), '\r', With(Newline2, req, hs), '\n', With(HeaderLineStart, req, hs));
  }

  lemma PassesColon(req: Request, hs: seq<Header>)
    requires hs != []
    ensures Passes(With(HeaderName, req, hs), ": ", With(HeaderValue, req, hs))
  {
    PassesTwo(With(HeaderName, req, hs), ':', With(SpaceBeforeValue, req, hs), ' ', With(HeaderValue, req, hs));
  }

  lemma PassesWholeName(req: Request, hs: seq<Header>, name: string)
    requires name != "" && AllTokens(name)
    ensures Passes(With(HeaderLineStart, req, hs), name, With(HeaderName, req, hs + [Header(name, "")]))
  {
    var c := name[0];
    var p, first := With(HeaderLineStart, req, hs), With(HeaderName, req, hs + [Header([c], "")]);
    PassesOne(p, c, first);
    PassesName(req, hs, [c], name[1..]);
    Cons(name);
    PassesBoth(p, [c], first, name[1..], With(HeaderName, req, hs + [Header(name, "")]));
  }

  lemma PassesFieldName(req: Request, hs: seq<Header>, name: string)
    requires name != "" && AllTokens(name)
    ensures Passes(With(HeaderLineStart, req, hs), name + ": ", With(HeaderValue, req, hs + [Header(name, "")]))
  {
    var named := hs + [Header(name, "")];
    PassesWholeName(req, hs, name);
    PassesColon(req, named);
    PassesBoth(With(HeaderLineStart, req, hs), name, With(HeaderName, req, named), ": ", With(HeaderValue, req, named));
  }

  lemma PassesField(req: Request, hs: seq<Header>, name: string, value: string)
    requires name != "" && AllTokens(name) && NoCtl(value)
    ensures Passes(With(HeaderLineStart, req, hs), ShowLine(Field(name, value)) + "\r\n",
                   With(HeaderLineStart, req, hs + [Header(name, value)]))
  {
    var p, named, full := With(HeaderLineStart, req, hs), hs + [Header(name, "")], hs + [Header(name, value)];
    PassesFieldName(req, hs, name);
    PassesValue(req, named, value);
    assert "" + value == value;
    assert Continued(named, value) == full;
    PassesBoth(p, name + ": ", With(HeaderValue, req, named), value, With(HeaderValue, req, full));
    PassesEnd(HeaderValue, req, full);
    PassesBoth(p, name + ": " + value, With(HeaderValue, req, full), "\r\n", With(HeaderLineStart, req, full));
  }

  lemma PassesFoldRest(req: Request, hs: seq<Header>, rest: string)
    requires hs != [] && NoCtl(rest) && (rest != "" ==> !Blank(rest[0]))
    ensures Passes(With(HeaderLws, req, hs), rest + "\r\n", With(HeaderLineStart, req, Continued(hs, rest)))
  {
    ContinuedTwice(hs, "", "");
    if rest == "" {
      assert rest + "\r\n" == "\r\n";
      PassesEnd(HeaderLws, req, hs);
    } else {
      var first, all := Continued(hs, [rest[0]]), Continued(hs, rest);
      ValueChar(HeaderLws, req, hs, rest[0]);
      PassesValue(req, first, rest[1..]);
      ContinuedTwice(hs, [rest[0]], rest[1..]);
      Cons(rest);
      PassesBoth(With(HeaderLws, req, hs), [rest[0]], With(HeaderValue, req, first), rest[1..],
          With(HeaderValue, req, all));
      PassesEnd(HeaderValue, req, all);
      PassesBoth(With(HeaderLws, req, hs), rest, With(HeaderValue, req, all), "\r\n", With(HeaderLineStart, req, all));
    }
  }

  lemma PassesFold(req: Request, hs: seq<Header>, blank: string, rest: string)
    requires hs != [] && LineOk(Fold(blank, rest))
    ensures Passes(With(HeaderLineStart, req, hs), ShowLine(Fold(blank, rest)) + "\r\n",
                   With(HeaderLineStart, req, Continued(hs, rest)))
  {
    var p, lws, q := With(HeaderLineStart, req, hs), With(HeaderLws, req, hs),
        With(HeaderLineStart, req, Continued(hs, rest));
    PassesOne(p, blank[0], lws);
    PassesBlanks(req, hs, blank[1..]);
    Cons(blank);
    PassesBoth(p, [blank[0]], lws, blank[1..], lws);
    PassesFoldRest(req, hs, rest);
    PassesBoth(p, blank, lws, rest + "\r\n", q);
    assert blank + (rest + "\r\n") == (blank + rest) + "\r\n";
  }

  lemma {:induction false} PassesLines(req: Request, ls: seq<Line>)
    requires LinesOk(ls) && req.headers == []
    ensures Passes(Parse(HeaderLineStart, req), ShowLines(ls), With(HeaderLineStart, req, Headers(ls)))
    decreases |ls|
  {
    if ls == [] {
      PassesNone(Parse(HeaderLineStart, req));
    } else {
      var init, l, hs := Init(ls), Last(ls), Headers(Init(ls));
      assert LinesOk(init);
      PassesLines(req, init);
      HeadersThere(init);
      match l {
        case Field(name, value) => PassesField(req, hs, name, value);
        case Fold(blank, rest) => PassesFold(req, hs, blank, rest);
      }
      PassesBoth(Parse(HeaderLineStart, req), ShowLines(init), With(HeaderLineStart, req, hs),
                 ShowLine(l) + "\r\n", With(HeaderLineStart, req, Headers(ls)));
      assert ShowLines(init) + (ShowLine(l) + "\r\n") == ShowLines(ls);
    }
  }

  // ----- the exact language

  lemma PassesToMajor(req: Request, major: string)
    requires major != "" && AllDigits(major)
    ensures Passes(Parse(VersionH, req), "HTTP/" + major, Parse(Major, req.(major := FromDecimal(major), minor := 0)))
  {
    var zero := req.(major := 0, minor := 0);
    PassesProtocol(req);
    PassesMajor(zero, major);
    PassesBoth(Parse(VersionH, req), "HTTP/", Parse(MajorStart, zero), major,
        Parse(Major, zero.(major := FromDecimal(major))));
  }

  lemma PassesMajorPart(req: Request, major: string)
    requires major != "" && AllDigits(major)
    ensures Passes(Parse(VersionH, req), "HTTP/" + major + ".",
                   Parse(MinorStart, req.(major := FromDecimal(major), minor := 0)))
  {
    var half := req.(major := FromDecimal(major), minor := 0);
    PassesToMajor(req, major);
    PassesOne(Parse(Major, half), '.', Parse(MinorStart, half));
    PassesBoth(Parse(VersionH, req), "HTTP/" + major, Parse(Major, half), ".", Parse(MinorStart, half));
  }

  lemma PassesMinorPart(req: Request, minor: string)
    requires minor != "" && AllDigits(minor) && req.minor == 0
    ensures Passes(Parse(MinorStart, req), minor + "\r\n", Parse(HeaderLineStart, req.(minor := FromDecimal(minor))))
  {
    var full := req.(minor := FromDecimal(minor));
    PassesMinor(req, minor);
    PassesTwo(Parse(Minor, full), '\r', Parse(Newline1, full), '\n', Parse(HeaderLineStart, full));
    PassesBoth(Parse(MinorStart, req), minor, Parse(Minor, full), "\r\n", Parse(HeaderLineStart, full));
  }

  lemma PassesVerbWord(req: Request, verb: string)
    requires verb != "" && AllTokens(verb) && req.verb == ""
    ensures Passes(Parse(MethodStart, req), verb + " ", Parse(Uri, req.(verb := verb)))
  {
    var p, c := Parse(MethodStart, req), verb[0];
    var first, named := req.(verb := [c]), req.(verb := verb);
    assert "" + [c] == [c];
    VerbChar(MethodStart, req, c);
    PassesVerb(first, verb[1..]);
    Cons(verb);
    PassesBoth(p, [c], Parse(Method, first), verb[1..], Parse(Method, named));
    PassesOne(Parse(Method, named), ' ', Parse(Uri, named));
    PassesBoth(p, verb, Parse(Method, named), " ", Parse(Uri, named));
  }

  lemma PassesUriWord(req: Request, uri: string)
    requires IsUri(uri) && req.uri == ""
    ensures Passes(Parse(Uri, req), uri + " ", Parse(VersionH, req.(uri := uri)))
  {
    var full := req.(uri := uri);
    assert "" + uri == uri;
    PassesUri(req, uri);
    PassesOne(Parse(Uri, full), ' ', Parse(VersionH, full));
    PassesBoth(Parse(Uri, req), uri, Parse(Uri, full), " ", Parse(VersionH, full));
  }

  lemma PassesWords(req: Request, verb: string, uri: string)
    requires verb != "" && AllTokens(verb) && IsUri(uri) && req.verb == "" && req.uri == ""
    ensures Passes(Parse(MethodStart, req), verb + " " + uri + " ", Parse(VersionH, req.(verb := verb, uri := uri)))
  {
    PassesVerbWord(req, verb);
    PassesUriWord(req.(verb := verb), uri);
    PassesBoth(Parse(MethodStart, req), verb + " ", Parse(Uri, req.(verb := verb)), uri + " ",
               Parse(VersionH, req.(verb := verb, uri := uri)));
    assert (verb + " ") + (uri + " ") == verb + " " + uri + " ";
  }

  lemma StartInParts(t: Text)
    ensures Start(t) == (t.verb + " " + t.uri + " ") + (("HTTP/" + t.major + ".") + (t.minor + "\r\n"))
  {
    var words := t.verb + " " + t.uri;
    assert words + " HTTP/" == (words + " ") + "HTTP/";
    assert " HTTP/" == " " + "HTTP/";
  }

  lemma PassesStart(t: Text, major: int, minor: int)
    requires WellFormed(t)
    ensures Passes(Initial(major, minor), Start(t),
                   Parse(HeaderLineStart, Request(t.verb, t.uri, FromDecimal(t.major), FromDecimal(t.minor), [])))
  {
    var req := Initial(major, minor).req;
    var named := req.(verb := t.verb, uri := t.uri);
    var half := named.(major := FromDecimal(t.major), minor := 0);
    var full := half.(minor := FromDecimal(t.minor));
    PassesWords(req, t.verb, t.uri);
    PassesMajorPart(named, t.major);
    PassesMinorPart(half, t.minor);
    PassesBoth(Parse(VersionH, named), "HTTP/" + t.major + ".", Parse(MinorStart, half), t.minor + "\r\n",
               Parse(HeaderLineStart, full));
    PassesBoth(Initial(major, minor), t.verb + " " + t.uri + " ", Parse(VersionH, named),
               ("HTTP/" + t.major + ".") + (t.minor + "\r\n"), Parse(HeaderLineStart, full));
    StartInParts(t);
  }

  lemma PassesBody(t: Text, major: int, minor: int)
    requires WellFormed(t)
    ensures Passes(Initial(major, minor), Start(t) + ShowLines(t.lines), Parse(HeaderLineStart, Denote(t)))
  {
    var started := Request(t.verb, t.uri, FromDecimal(t.major), FromDecimal(t.minor), []);
    PassesStart(t, major, minor);
    PassesLines(started, t.lines);
    PassesBoth(Initial(major, minor), Start(t), Parse(HeaderLineStart, started), ShowLines(t.lines),
        With(HeaderLineStart, started, Headers(t.lines)));
  }

  lemma AcceptsLast(req: Request, tail: string)
    ensures Feed(Parse(Newline3, req), "\n" + tail) == Outcome(Parse(Newline3, req), Accepted, 1)
  {
    var s := "\n" + tail;
    assert s[0] == '\n';
    FeedStop(Parse(Newline3, req), s);
  }

  lemma AcceptsBlankLine(req: Request, tail: string)
    ensures Feed(Parse(HeaderLineStart, req), "\r\n" + tail) == Outcome(Parse(Newline3, req), Accepted, 2)
  {
    var s := "\r\n" + tail;
    assert s[0] == '\r' && s[1..] == "\n" + tail;
    FeedStep(Parse(HeaderLineStart, req), s, Parse(Newline3, req));
    AcceptsLast(req, tail);
  }

  /**
   Printing a well-formed request and parsing it gives the request back: it is accepted at its last
   character, whatever follows it in the buffer.
   */
  lemma {:induction false} PrintedRequestsParse(t: Text, major: int, minor: int, tail: string)
    requires WellFormed(t)
    ensures var o := Feed(Initial(major, minor), Show(t) + tail);
            o.verdict == Accepted && o.parse.req == Denote(t) && o.consumed == |Show(t)|
  {
    var body := Start(t) + ShowLines(t.lines);
    PassesBody(t, major, minor);
    FeedSplits(Initial(major, minor), body, "\r\n" + tail);
    assert (body + "\r\n") + tail == body + ("\r\n" + tail);
    AcceptsBlankLine(Denote(t), tail);
  }

  /** The input was accepted after n characters, with this request. */
  predicate AcceptedWith(o: Outcome, req: Request, n: nat) {
    o.verdict == Accepted && o.parse.req == req && o.consumed == n
  }

  predicate IsTextOf(t: Text, s: string, req: Request) {
    WellFormed(t) && Show(t) == s && Denote(t) == req
  }

  lemma AcceptedIsText(major: int, minor: int, s: string) returns (t: Text)
    ensures var o := Feed(Initial(major, minor), s);
            o.verdict == Accepted ==> IsTextOf(t, s[..o.consumed], o.parse.req)
  {
    InitialReadsNothing(major, minor);
    t := FeedReads(Initial(major, minor), NO_TEXT, "", s);
    var n := Feed(Initial(major, minor), s).consumed;
    assert "" + s[..n] == s[..n];
  }

  lemma TextIsAccepted(major: int, minor: int, s: string, n: nat, t: Text)
    requires n <= |s| && WellFormed(t) && Show(t) == s[..n]
    ensures AcceptedWith(Feed(Initial(major, minor), s), Denote(t), n)
  {
    assert s == s[..n] + s[n..];
    PrintedRequestsParse(t, major, minor, s[n..]);
  }

  /**
   The parser accepts exactly the well-formed texts: input is accepted after n characters with a request
   if and only if its first n characters are the text of a well-formed request denoting it.
   */
  lemma {:induction false} AcceptsExactlyTheGrammar(major: int, minor: int, s: string, req: Request, n: nat)
    requires n <= |s|
    ensures AcceptedWith(Feed(Initial(major, minor), s), req, n) <==> exists t :: IsTextOf(t, s[..n], req)
  {
    if AcceptedWith(Feed(Initial(major, minor), s), req, n) {
      var t := AcceptedIsText(major, minor, s);
      assert IsTextOf(t, s[..n], req);
    }
    if t :| IsTextOf(t, s[..n], req) {
      TextIsAccepted(major, minor, s, n, t);
    }
  }

  // ----- what every reachable state keeps

  /** Names and the method are tokens, values and the URI free of control characters, headers there when used. */
  predicate Safe(p: Parse) {
    && p.state != UriStart
    && LastHeaderThere(p)
    && AllTokens(p.req.verb) && (p.state != MethodStart ==> p.req.verb != "")
    && NoCtl(p.req.uri)
    && HeadersSafe(p.req.headers)
  }

  predicate HeadersSafe(hs: seq<Header>) {
    forall i :: 0 <= i < |hs| ==> hs[i].name != "" && AllTokens(hs[i].name) && NoCtl(hs[i].value)
  }

  lemma {:induction false} HeadersOfLinesAreSafe(ls: seq<Line>)
    requires LinesOk(ls)
    ensures HeadersSafe(Headers(ls))
    decreases |ls|
  {
    if ls != [] {
      assert LinesOk(Init(ls));
      HeadersOfLinesAreSafe(Init(ls));
    }
  }

  lemma ReadIsSafe(p: Parse, t: Text, prefix: string)
    requires LastHeaderThere(p) && ReadSoFar(p, t, prefix)
    ensures Safe(p)
  {
    HeadersOfLinesAreSafe(t.lines);
  }

  /** A character that decides leaves the request as it was. */
  lemma DecidingLeavesParse(p: Parse, c: char)
    requires LastHeaderThere(p) && Next(p, c).1 != Indeterminate
    ensures Next(p, c).0 == p
  {
  }

  lemma {:induction false} FeedStaysSafe(p: Parse, t: Text, prefix: string, s: string)
    requires LastHeaderThere(p) && ReadSoFar(p, t, prefix)
    ensures Safe(Feed(p, s).parse)
    decreases |s|
  {
    ReadIsSafe(p, t, prefix);
    if s != "" {
      if Next(p, s[0]).1 == Indeterminate {
        var q := Next(p, s[0]).0;
        Grows(p, t, prefix, s[0]);
        FeedStep(p, s, q);
        FeedStaysSafe(q, Grow(p.state, t, s[0]), prefix + [s[0]], s[1..]);
      } else {
        FeedStop(p, s);
        DecidingLeavesParse(p, s[0]);
      }
    }
  }

  /** Every state the parser can be left in, by any input, accepted, rejected or unfinished, is safe. */
  lemma ReachableParsesAreSafe(major: int, minor: int, s: string)
    ensures Safe(Feed(Initial(major, minor), s).parse)
  {
    InitialReadsNothing(major, minor);
    FeedStaysSafe(Initial(major, minor), NO_TEXT, "", s);
  }
}
