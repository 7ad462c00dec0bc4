/**
 The requests' language, as texts one could print, and the proof that whatever the parser has read is a
 text of that language, or a part of one, denoting what the parser has filled in.
 */
module RequestGrammar {
  import opened Decimal
  import opened RequestAlphabet
  import opened RequestParser

  /** A header line, or a line folded onto the header before it. */
  datatype Line = Field(name: string, value: string) | Fold(blank: string, rest: string)

  datatype Text = Text(verb: string, uri: string, major: string, minor: string, lines: seq<Line>)

  // ----- what a text looks like

  function ShowLine(l: Line): string {
    match l
    case Field(name, value) => name + ": " + value
    case Fold(blank, rest) => blank + rest
  }

  function ShowLines(ls: seq<Line>): string {
    if ls == [] then "" else ShowLines(ls[..|ls| - 1]) + ShowLine(ls[|ls| - 1]) + "\r\n"
  }

  function Before(t: Text): string {
    t.verb + " " + t.uri + " HTTP/"
  }

  function Start(t: Text): string {
    Before(t) + t.major + "." + t.minor + "\r\n"
  }

  function Show(t: Text): string {
    Start(t) + ShowLines(t.lines) + "\r\n"
  }

  // ----- which texts are requests

  predicate AllTokens(s: string) {
    forall i :: 0 <= i < |s| ==> TokenLetter(s[i])
  }

  predicate NoCtl(s: string) {
    forall i :: 0 <= i < |s| ==> !Control(s[i])
  }

  predicate AllBlanks(s: string) {
    forall i :: 0 <= i < |s| ==> Blank(s[i])
  }

  predicate IsUri(s: string) {
    NoCtl(s) && ' ' !in s
  }

  predicate LineOk(l: Line) {
    match l
    case Field(name, value) => name != "" && AllTokens(name) && NoCtl(value)
    case Fold(blank, rest) => blank != "" && AllBlanks(blank) && NoCtl(rest) && (rest != "" ==> !Blank(rest[0]))
  }

  predicate LinesOk(ls: seq<Line>) {
    (ls != [] ==> ls[0].Field?) && forall i :: 0 <= i < |ls| ==> LineOk(ls[i])
  }

  predicate WellFormed(t: Text) {
    && t.verb != "" && AllTokens(t.verb) && IsUri(t.uri)
    && t.major != "" && AllDigits(t.major) && t.minor != "" && AllDigits(t.minor)
    && LinesOk(t.lines)
  }

  // ----- what a text denotes

  /** A folded line continues the value of the header before it; its leading blanks are dropped. */
  function Headers(ls: seq<Line>): seq<Header> {
    if ls == [] then []
    else
      var before := Headers(ls[..|ls| - 1]);
      match ls[|ls| - 1]
      case Field(name, value) => before + [Header(name, value)]
      case Fold(_, rest) =>
        if before == [] then []
        else
          var last := before[|before| - 1];
          before[|before| - 1 := last.(value := last.value + rest)]
  }

  function Denote(t: Text): Request
    requires AllDigits(t.major) && AllDigits(t.minor)
  {
    Request(t.verb, t.uri, FromDecimal(t.major), FromDecimal(t.minor), Headers(t.lines))
  }

  // ----- soundness: the text read so far

  function Rank(s: State): nat {
    match s
    case MethodStart => 0
    case Method => 1
    case UriStart => 2
    case Uri => 2
    case VersionH => 3
    case VersionT1 => 4
    case VersionT2 => 5
    case VersionP => 6
    case VersionSlash => 7
    case MajorStart => 8
    case Major => 9
    case MinorStart => 10
    case Minor => 11
    case Newline1 => 12
    case _ => 13
  }

  function Init(ls: seq<Line>): seq<Line>
    requires ls != []
  {
    ls[..|ls| - 1]
  }

  function Last(ls: seq<Line>): Line
    requires ls != []
  {
    ls[|ls| - 1]
  }

  /** What of the text the parser has taken when it is in a state. */
  function Shown(s: State, t: Text): string
    requires UsesLastHeader(s) ==> t.lines != []
    requires s == HeaderName || s == SpaceBeforeValue ==> Last(t.lines).Field?
  {
    match s
    case MethodStart => ""
    case Method => t.verb
    case UriStart => ""
    case Uri => t.verb + " " + t.uri
    case VersionH => t.verb + " " + t.uri + " "
    case VersionT1 => t.verb + " " + t.uri + " H"
    case VersionT2 => t.verb + " " + t.uri + " HT"
    case VersionP => t.verb + " " + t.uri + " HTT"
    case VersionSlash => t.verb + " " + t.uri + " HTTP"
    case MajorStart => Before(t)
    case Major => Before(t) + t.major
    case MinorStart => Before(t) + t.major + "."
    case Minor => Before(t) + t.major + "." + t.minor
    case Newline1 => Before(t) + t.major + "." + t.minor + "\r"
    case _ => Start(t) + Tail(s, t.lines)
  }

  /** What of the header lines the parser has taken. */
  function Tail(s: State, ls: seq<Line>): string
    requires UsesLastHeader(s) ==> ls != []
    requires s == HeaderName || s == SpaceBeforeValue ==> Last(ls).Field?
  {
    match s
    case HeaderLineStart => ShowLines(ls)
    case HeaderName => ShowLines(Init(ls)) + Last(ls).name
    case SpaceBeforeValue => ShowLines(Init(ls)) + Last(ls).name + ":"
    case HeaderLws => ShowLines(Init(ls)) + ShowLine(Last(ls))
    case HeaderValue => ShowLines(Init(ls)) + ShowLine(Last(ls))
    case Newline2 => ShowLines(Init(ls)) + ShowLine(Last(ls)) + "\r"
    case Newline3 => ShowLines(ls) + "\r"
    case _ => ""
  }

  /** The parts of the text a state has behind it are well formed, and the parts before it are empty. */
  predicate LineShape(s: State, t: Text) {
    && s != UriStart
    && AllTokens(t.verb) && (t.verb == "" <==> s == MethodStart)
    && IsUri(t.uri) && (Rank(s) < 2 ==> t.uri == "")
    && AllDigits(t.major) && (t.major == "" <==> Rank(s) <= 8)
    && AllDigits(t.minor) && (t.minor == "" <==> Rank(s) <= 10)
    && (Rank(s) < 13 ==> t.lines == [])
  }

  predicate HeaderShape(s: State, ls: seq<Line>) {
    && LinesOk(ls)
    && (UsesLastHeader(s) ==> ls != [])
    && (s == HeaderName || s == SpaceBeforeValue ==> Last(ls).Field? && Last(ls).value == "")
    && (s == HeaderLws ==> Last(ls).Fold? && Last(ls).rest == "")
    && (s == HeaderValue && Last(ls).Fold? ==> Last(ls).rest != "")
  }

  predicate Agrees(s: State, t: Text, req: Request)
    requires AllDigits(t.major) && AllDigits(t.minor)
  {
    && req.verb == t.verb && req.uri == t.uri && req.headers == Headers(t.lines)
    && (Rank(s) >= 8 ==> req.major == FromDecimal(t.major) && req.minor == FromDecimal(t.minor))
  }

  /** The parse stands where it would after exactly this part of the text. */
  predicate ReadSoFar(p: Parse, t: Text, prefix: string) {
    LineShape(p.state, t) && HeaderShape(p.state, t.lines) && Agrees(p.state, t, p.req) && Shown(p.state, t) == prefix
  }

  /** The text, longer by the character just taken. */
  function Grow(s: State, t: Text, c: char): Text
    requires HeaderShape(s, t.lines)
  {
    match s
    case MethodStart => t.(verb := t.verb + [c])
    case Method => if c == ' ' then t else t.(verb := t.verb + [c])
    case Uri => if c == ' ' then t else t.(uri := t.uri + [c])
    case MajorStart => t.(major := t.major + [c])
    case Major => if c == '.' then t else t.(major := t.major + [c])
    case MinorStart => t.(minor := t.minor + [c])
    case Minor => if c == '\r' then t else t.(minor := t.minor + [c])
    case _ => if InHeaders(s) then t.(lines := GrowLines(s, t.lines, c)) else t
  }

  function GrowLines(s: State, ls: seq<Line>, c: char): seq<Line>
    requires HeaderShape(s, ls)
  {
    match s
    case HeaderLineStart => if c == '\r' then ls else ls + [if Blank(c) then Fold([c], "") else Field([c], "")]
    case HeaderName => if c == ':' then ls else Init(ls) + [Last(ls).(name := Last(ls).name + [c])]
    case HeaderLws =>
      if c == '\r' then ls
      else if Blank(c) then Init(ls) + [Last(ls).(blank := Last(ls).blank + [c])]
      else Init(ls) + [Longer(Last(ls), c)]
    case HeaderValue => if c == '\r' then ls else Init(ls) + [Longer(Last(ls), c)]
    case _ => ls
  }

  function Longer(l: Line, c: char): Line {
    match l
    case Field(name, value) => Field(name, value + [c])
    case Fold(blank, rest) => Fold(blank, rest + [c])
  }

  lemma HeadersThere(ls: seq<Line>)
    requires LinesOk(ls)
    ensures Headers(ls) == [] <==> ls == []
  {
    if ls != [] && Last(ls).Fold? {
      assert LinesOk(Init(ls));
      HeadersThere(Init(ls));
    }
  }

  /** One more character of the text was read. */
  predicate Grown(p: Parse, t: Text, prefix: string, c: char)
    requires LastHeaderThere(p) && ReadSoFar(p, t, prefix)
  {
    Next(p, c).1 == Indeterminate ==> ReadSoFar(Next(p, c).0, Grow(p.state, t, c), prefix + [c])
  }

  lemma GrownInto(p: Parse, t: Text, prefix: string, c: char, q: Parse, t': Text)
    requires LastHeaderThere(p) && ReadSoFar(p, t, prefix)
    requires Next(p, c).0 == q && Grow(p.state, t, c) == t' && ReadSoFar(q, t', prefix + [c])
    ensures Grown(p, t, prefix, c)
  {
  }

  lemma GrowsWords(p: Parse, t: Text, prefix: string, c: char)
    requires LastHeaderThere(p) && ReadSoFar(p, t, prefix)
    requires p.state == MethodStart || p.state == Method || p.state == Uri
    ensures Grown(p, t, prefix, c)
  {
    if Next(p, c).1 == Indeterminate {
      assert Shown(Next(p, c).0.state, Grow(p.state, t, c)) == prefix + [c];
    }
  }

  lemma GrowsProtocol(p: Parse, t: Text, prefix: string, c: char)
    requires LastHeaderThere(p) && ReadSoFar(p, t, prefix)
    requires 3 <= Rank(p.state) <= 6
    ensures Grown(p, t, prefix, c)
  {
    if Next(p, c).1 == Indeterminate {
      assert Shown(Next(p, c).0.state, t) == prefix + [c];
    }
  }

  lemma GrowsSlash(p: Parse, t: Text, prefix: string, c: char)
    requires LastHeaderThere(p) && ReadSoFar(p, t, prefix)
    requires p.state == VersionSlash || p.state == Newline1
    ensures Grown(p, t, prefix, c)
  {
    if Next(p, c).1 == Indeterminate {
      assert Shown(Next(p, c).0.state, t) == prefix + [c];
    }
  }

  lemma MajorDigit(p: Parse, t: Text, prefix: string, c: char)
    requires ReadSoFar(p, t, prefix) && (p.state == MajorStart || p.state == Major) && IsDigit(c)
    ensures ReadSoFar(Parse(Major, p.req.(major := p.req.major * 10 + DigitValue(c))), t.(major := t.major + [c]),
            prefix + [c])
  {
    SnocDigit(t.major, c);
    assert Shown(Major, t.(major := t.major + [c])) == prefix + [c];
  }

  lemma MajorEnd(p: Parse, t: Text, prefix: string)
    requires ReadSoFar(p, t, prefix) && p.state == Major
    ensures ReadSoFar(Parse(MinorStart, p.req), t, prefix + ['.'])
  {
    assert Shown(MinorStart, t) == prefix + ['.'];
  }

  lemma NextMajorDigit(p: Parse, c: char)
    requires LastHeaderThere(p) && (p.state == MajorStart || p.state == Major) && IsDigit(c)
    ensures Next(p, c) == Go(Major, p.req.(major := p.req.major * 10 + DigitValue(c)))
  {
  }

  lemma NextMajorEnd(p: Parse, c: char)
    requires LastHeaderThere(p) && (p.state == MajorStart || p.state == Major) && !IsDigit(c)
    ensures Next(p, c).1 == Indeterminate ==> p.state == Major && c == '.' && Next(p, c) == Go(MinorStart, p.req)
  {
  }

  lemma GrowsMajorDigit(p: Parse, t: Text, prefix: string, c: char)
    requires LastHeaderThere(p) && ReadSoFar(p, t, prefix)
    requires (p.state == MajorStart || p.state == Major) && IsDigit(c)
    ensures Grown(p, t, prefix, c)
  {
    NextMajorDigit(p, c);
    MajorDigit(p, t, prefix, c);
    GrownInto(p, t, prefix, c, Next(p, c).0, t.(major := t.major + [c]));
  }

  lemma GrowsMajorEnd(p: Parse, t: Text, prefix: string, c: char)
    requires LastHeaderThere(p) && ReadSoFar(p, t, prefix)
    requires (p.state == MajorStart || p.state == Major) && !IsDigit(c)
    ensures Grown(p, t, prefix, c)
  {
    NextMajorEnd(p, c);
    if Next(p, c).1 == Indeterminate {
      MajorEnd(p, t, prefix);
      GrownInto(p, t, prefix, c, Next(p, c).0, t);
    }
  }

  lemma GrowsMajor(p: Parse, t: Text, prefix: string, c: char)
    requires LastHeaderThere(p) && ReadSoFar(p, t, prefix)
    requires p.state == MajorStart || p.state == Major
    ensures Grown(p, t, prefix, c)
  {
    if IsDigit(c) {
      GrowsMajorDigit(p, t, prefix, c);
    } else {
      GrowsMajorEnd(p, t, prefix, c);
    }
  }

  lemma MinorDigit(p: Parse, t: Text, prefix: string, c: char)
    requires ReadSoFar(p, t, prefix) && (p.state == MinorStart || p.state == Minor) && IsDigit(c)
    ensures ReadSoFar(Parse(Minor, p.req.(minor := p.req.minor * 10 + DigitValue(c))), t.(minor := t.minor + [c]),
            prefix + [c])
  {
    SnocDigit(t.minor, c);
    assert Shown(Minor, t.(minor := t.minor + [c])) == prefix + [c];
  }

  lemma MinorEnd(p: Parse, t: Text, prefix: string)
    requires ReadSoFar(p, t, prefix) && p.state == Minor
    ensures ReadSoFar(Parse(Newline1, p.req), t, prefix + ['\r'])
  {
    assert Shown(Newline1, t) == prefix + ['\r'];
  }

  lemma NextMinorDigit(p: Parse, c: char)
    requires LastHeaderThere(p) && (p.state == MinorStart || p.state == Minor) && IsDigit(c)
    ensures Next(p, c) == Go(Minor, p.req.(minor := p.req.minor * 10 + DigitValue(c)))
  {
  }

  lemma NextMinorEnd(p: Parse, c: char)
    requires LastHeaderThere(p) && (p.state == MinorStart || p.state == Minor) && !IsDigit(c)
    ensures Next(p, c).1 == Indeterminate ==> p.state == Minor && c == '\r' && Next(p, c) == Go(Newline1, p.req)
  {
  }

  lemma GrowsMinorDigit(p: Parse, t: Text, prefix: string, c: char)
    requires LastHeaderThere(p) && ReadSoFar(p, t, prefix)
    requires (p.state == MinorStart || p.state == Minor) && IsDigit(c)
    ensures Grown(p, t, prefix, c)
  {
    NextMinorDigit(p, c);
    MinorDigit(p, t, prefix, c);
    GrownInto(p, t, prefix, c, Next(p, c).0, t.(minor := t.minor + [c]));
  }

  lemma GrowsMinorEnd(p: Parse, t: Text, prefix: string, c: char)
    requires LastHeaderThere(p) && ReadSoFar(p, t, prefix)
    requires (p.state == MinorStart || p.state == Minor) && !IsDigit(c)
    ensures Grown(p, t, prefix, c)
  {
    NextMinorEnd(p, c);
    if Next(p, c).1 == Indeterminate {
      MinorEnd(p, t, prefix);
      GrownInto(p, t, prefix, c, Next(p, c).0, t);
    }
  }

  lemma GrowsMinor(p: Parse, t: Text, prefix: string, c: char)
    requires LastHeaderThere(p) && ReadSoFar(p, t, prefix)
    requires p.state == MinorStart || p.state == Minor
    ensures Grown(p, t, prefix, c)
  {
    if IsDigit(c) {
      GrowsMinorDigit(p, t, prefix, c);
    } else {
      GrowsMinorEnd(p, t, prefix, c);
    }
  }

  lemma AppendShown(ls: seq<Line>, l: Line)
    ensures ShowLines(ls + [l]) == ShowLines(ls) + ShowLine(l) + "\r\n"
    ensures Init(ls + [l]) == ls && Last(ls + [l]) == l
  {
    assert (ls + [l])[..|ls|] == ls;
  }

  lemma AppendField(ls: seq<Line>, name: string, value: string)
    ensures Headers(ls + [Field(name, value)]) == Headers(ls) + [Header(name, value)]
  {
    assert (ls + [Field(name, value)])[..|ls|] == ls;
  }

  /** The header lines are longer by one character, and the headers they denote are the parser's. */
  predicate LinesGrown(s: State, ls: seq<Line>, req: Request, c: char)
    requires InHeaders(s) && HeaderShape(s, ls) && LastHeaderThere(Parse(s, req))
  {
    var (q, v) := NextInHeaders(Parse(s, req), c);
    var ls' := GrowLines(s, ls, c);
    v == Indeterminate ==>
      && InHeaders(q.state) && HeaderShape(q.state, ls')
      && Tail(q.state, ls') == Tail(s, ls) + [c]
      && q.req == req.(headers := Headers(ls'))
  }

  lemma LinesExtend(ls: seq<Line>, l: Line)
    requires LinesOk(ls) && LineOk(l) && (ls == [] ==> l.Field?)
    ensures LinesOk(ls + [l])
  {
  }

  lemma OpensField(ls: seq<Line>, c: char)
    requires LinesOk(ls) && TokenLetter(c)
    ensures var ls' := ls + [Field([c], "")];
            HeaderShape(HeaderName, ls') && Tail(HeaderName, ls') == ShowLines(ls) + [c] &&
                Headers(ls') == Headers(ls) + [Header([c], "")]
  {
    OpensFieldShape(ls, c);
    FieldShown(ls, c);
    AppendField(ls, [c], "");
  }

  lemma OpensFieldShape(ls: seq<Line>, c: char)
    requires LinesOk(ls) && TokenLetter(c)
    ensures HeaderShape(HeaderName, ls + [Field([c], "")])
  {
    LinesExtend(ls, Field([c], ""));
  }

  lemma FieldShown(ls: seq<Line>, c: char)
    ensures var ls' := ls + [Field([c], "")];
            Last(ls') == Field([c], "") && ShowLines(Init(ls')) + Last(ls').name == ShowLines(ls) + [c]
  {
    assert Init(ls + [Field([c], "")]) == ls;
  }

  lemma OpensFold(ls: seq<Line>, c: char)
    requires LinesOk(ls) && ls != [] && Blank(c)
    ensures var ls' := ls + [Fold([c], "")];
            HeaderShape(HeaderLws, ls') && Tail(HeaderLws, ls') == ShowLines(ls) + [c] && Headers(ls') == Headers(ls)
  {
    OpensFoldShape(ls, c);
    FoldShown(ls, c);
    FoldNothing(ls, [c]);
  }

  lemma OpensFoldShape(ls: seq<Line>, c: char)
    requires LinesOk(ls) && ls != [] && Blank(c)
    ensures HeaderShape(HeaderLws, ls + [Fold([c], "")])
  {
    LinesExtend(ls, Fold([c], ""));
  }

  lemma FoldShown(ls: seq<Line>, c: char)
    ensures var ls' := ls + [Fold([c], "")];
            Last(ls') == Fold([c], "") && ShowLines(Init(ls')) + ShowLine(Last(ls')) == ShowLines(ls) + [c]
  {
    AppendShown(ls, Fold([c], ""));
    assert [c] + "" == [c];
  }

  lemma BlankAtLineStart(req: Request, c: char)
    requires Blank(c)
    ensures NextInHeaders(Parse(HeaderLineStart, req), c) ==
            if req.headers == [] then Fail(Parse(HeaderLineStart, req)) else Go(HeaderLws, req)
  {
  }

  lemma GrowsNewFold(ls: seq<Line>, req: Request, c: char)
    requires HeaderShape(HeaderLineStart, ls) && req.headers == Headers(ls) && Blank(c)
    ensures LinesGrown(HeaderLineStart, ls, req, c)
  {
    HeadersThere(ls);
    BlankAtLineStart(req, c);
    if ls != [] {
      OpensFold(ls, c);
    }
  }

  lemma GrowsNewField(ls: seq<Line>, req: Request, c: char)
    requires HeaderShape(HeaderLineStart, ls) && req.headers == Headers(ls) && !Blank(c) && c != '\r'
    ensures LinesGrown(HeaderLineStart, ls, req, c)
  {
    if TokenLetter(c) {
      OpensField(ls, c);
    }
  }

  lemma GrowsNewHeaderLine(ls: seq<Line>, req: Request, c: char)
    requires HeaderShape(HeaderLineStart, ls) && req.headers == Headers(ls)
    ensures LinesGrown(HeaderLineStart, ls, req, c)
  {
    if Blank(c) {
      GrowsNewFold(ls, req, c);
    } else if c == '\r' {
      assert NextInHeaders(Parse(HeaderLineStart, req), c) == Go(Newline3, req);
    } else {
      GrowsNewField(ls, req, c);
    }
  }

  /** A fold with nothing after its blanks leaves the headers alone. */
  lemma FoldNothing(ls: seq<Line>, blank: string)
    ensures Headers(ls + [Fold(blank, "")]) == Headers(ls)
  {
    assert (ls + [Fold(blank, "")])[..|ls|] == ls;
    var h := Headers(ls);
    if h != [] {
      assert h[|h| - 1].value + "" == h[|h| - 1].value;
    }
  }

  /** Changing the last line keeps the lines well formed when the line is. */
  lemma ReplaceLast(ls: seq<Line>, l: Line)
    requires LinesOk(ls) && ls != [] && LineOk(l) && (Last(ls).Field? <==> l.Field?)
    ensures LinesOk(Init(ls) + [l]) && LinesOk(Init(ls))
    ensures Init(Init(ls) + [l]) == Init(ls) && Last(Init(ls) + [l]) == l
  {
    assert Init(Init(ls) + [l]) == Init(ls);
  }

  lemma LongerNameHeaders(init: seq<Line>, name: string, c: char)
    ensures Headers(init + [Field(name, "")]) != []
    ensures Headers(init + [Field(name + [c], "")]) == AddToName(Headers(init + [Field(name, "")]), c)
  {
    AppendField(init, name, "");
    AppendField(init, name + [c], "");
  }

  lemma LongerNameShape(ls: seq<Line>, c: char)
    requires HeaderShape(HeaderName, ls) && TokenLetter(c)
    ensures HeaderShape(HeaderName, Init(ls) + [Field(Last(ls).name + [c], "")])
  {
    ReplaceLast(ls, Field(Last(ls).name + [c], ""));
  }

  lemma LongerNameTail(ls: seq<Line>, c: char)
    requires HeaderShape(HeaderName, ls)
    ensures Tail(HeaderName, Init(ls) + [Field(Last(ls).name + [c], "")]) == Tail(HeaderName, ls) + [c]
  {
    var init, name := Init(ls), Last(ls).name;
    var ls' := init + [Field(name + [c], "")];
    assert Init(ls') == init && Last(ls').name == name + [c];
    assert ShowLines(init) + (name + [c]) == (ShowLines(init) + name) + [c];
  }

  lemma LongerName(ls: seq<Line>, c: char)
    requires HeaderShape(HeaderName, ls) && TokenLetter(c)
    ensures var ls' := Init(ls) + [Last(ls).(name := Last(ls).name + [c])];
            && HeaderShape(HeaderName, ls')
            && Tail(HeaderName, ls') == Tail(HeaderName, ls) + [c]
            && Headers(ls) != [] && Headers(ls') == AddToName(Headers(ls), c)
  {
    var init, name := Init(ls), Last(ls).name;
    assert Last(ls) == Field(name, "") && ls == init + [Field(name, "")];
    LongerNameShape(ls, c);
    LongerNameTail(ls, c);
    LongerNameHeaders(init, name, c);
  }

  lemma GrowsName(ls: seq<Line>, req: Request, c: char)
    requires HeaderShape(HeaderName, ls) && req.headers == Headers(ls) && req.headers != []
    ensures LinesGrown(HeaderName, ls, req, c)
  {
    if c == ':' {
    } else if TokenLetter(c) {
      LongerName(ls, c);
    } else {
      assert NextInHeaders(Parse(HeaderName, req), c).1 == Rejected;
    }
  }

  lemma GrowsSpace(ls: seq<Line>, req: Request, c: char)
    requires HeaderShape(SpaceBeforeValue, ls) && req.headers == Headers(ls) && req.headers != []
    ensures LinesGrown(SpaceBeforeValue, ls, req, c)
  {
    var before, name := ShowLines(Init(ls)), Last(ls).name;
    assert name + ": " + "" == name + ": ";
    assert before + (name + ": ") == (before + name + ":") + [' '];
  }

  lemma AppendFold(ls: seq<Line>, blank: string, rest: string)
    requires Headers(ls) != []
    ensures var h := Headers(ls);
            Headers(ls + [Fold(blank, rest)]) == h[|h| - 1 := h[|h| - 1].(value := h[|h| - 1].value + rest)]
  {
    assert (ls + [Fold(blank, rest)])[..|ls|] == ls;
  }

  lemma LongerFieldValue(init: seq<Line>, name: string, value: string, c: char)
    ensures Headers(init + [Field(name, value)]) != []
    ensures Headers(init + [Field(name, value + [c])]) == AddToValue(Headers(init + [Field(name, value)]), c)
  {
    AppendField(init, name, value);
    AppendField(init, name, value + [c]);
  }

  lemma LongerFoldRest(init: seq<Line>, blank: string, rest: string, c: char)
    requires Headers(init) != []
    ensures Headers(init + [Fold(blank, rest)]) != []
    ensures Headers(init + [Fold(blank, rest + [c])]) == AddToValue(Headers(init + [Fold(blank, rest)]), c)
  {
    var h := Headers(init);
    AppendFold(init, blank, rest);
    AppendFold(init, blank, rest + [c]);
    assert (h[|h| - 1].value + rest) + [c] == h[|h| - 1].value + (rest + [c]);
  }

  lemma LongerShown(l: Line, c: char)
    ensures ShowLine(Longer(l, c)) == ShowLine(l) + [c]
  {
    match l
    case Field(name, value) => assert name + ": " + (value + [c]) == (name + ": " + value) + [c];
    case Fold(blank, rest) => assert blank + (rest + [c]) == (blank + rest) + [c];
  }

  /** One more character of value lengthens the last header's value. */
  lemma LongerValue(ls: seq<Line>, c: char)
    requires LinesOk(ls) && ls != []
    ensures Headers(ls) != []
    ensures Headers(Init(ls) + [Longer(Last(ls), c)]) == AddToValue(Headers(ls), c)
    ensures ShowLine(Longer(Last(ls), c)) == ShowLine(Last(ls)) + [c]
  {
    var init := Init(ls);
    assert ls == init + [Last(ls)];
    LongerShown(Last(ls), c);
    match Last(ls)
    case Field(name, value) => LongerFieldValue(init, name, value, c);
    case Fold(blank, rest) =>
      FoldHasHeaders(ls);
      LongerFoldRest(init, blank, rest, c);
  }

  lemma FoldHasHeaders(ls: seq<Line>)
    requires LinesOk(ls) && ls != [] && Last(ls).Fold?
    ensures Headers(Init(ls)) != []
  {
    assert LinesOk(Init(ls)) && Init(ls) != [];
    HeadersThere(Init(ls));
  }

  lemma GrowsValue(ls: seq<Line>, req: Request, c: char)
    requires HeaderShape(HeaderValue, ls) && req.headers == Headers(ls) && req.headers != []
    ensures LinesGrown(HeaderValue, ls, req, c)
  {
    if c == '\r' {
      assert NextInHeaders(Parse(HeaderValue, req), c) == Go(Newline2, req);
    } else if !Control(c) {
      LongerValueGrows(ls, c);
      assert NextInHeaders(Parse(HeaderValue, req), c) == Go(HeaderValue, req.(headers := AddToValue(req.headers, c)));
    } else {
      assert NextInHeaders(Parse(HeaderValue, req), c).1 == Rejected;
    }
  }

  /** The last line longer by a character, and all that is shown with it. */
  lemma LongerLastShown(ls: seq<Line>, l: Line, c: char)
    requires ls != [] && ShowLine(l) == ShowLine(Last(ls)) + [c]
    ensures var ls' := Init(ls) + [l];
            && Init(ls') == Init(ls) && Last(ls') == l
            && ShowLines(Init(ls')) + ShowLine(l) == (ShowLines(Init(ls)) + ShowLine(Last(ls))) + [c]
  {
    assert Init(Init(ls) + [l]) == Init(ls);
  }

  lemma LongerValueGrows(ls: seq<Line>, c: char)
    requires HeaderShape(HeaderValue, ls) && !Control(c)
    ensures var ls' := Init(ls) + [Longer(Last(ls), c)];
            && Headers(ls) != [] && HeaderShape(HeaderValue, ls')
            && Tail(HeaderValue, ls') == Tail(HeaderValue, ls) + [c]
            && Headers(ls') == AddToValue(Headers(ls), c)
  {
    var l := Longer(Last(ls), c);
    LongerValue(ls, c);
    LongerValueShape(ls, l, c);
    LongerValueTail(ls, l, c);
  }

  lemma LongerValueShape(ls: seq<Line>, l: Line, c: char)
    requires HeaderShape(HeaderValue, ls) && !Control(c) && l == Longer(Last(ls), c)
    ensures HeaderShape(HeaderValue, Init(ls) + [l])
  {
    ReplaceLast(ls, l);
  }

  lemma LongerValueTail(ls: seq<Line>, l: Line, c: char)
    requires HeaderShape(HeaderValue, ls) && l == Longer(Last(ls), c)
    ensures Tail(HeaderValue, Init(ls) + [l]) == Tail(HeaderValue, ls) + [c]
  {
    LongerShown(Last(ls), c);
    LongerLastShown(ls, l, c);
  }

  lemma LongerBlankHeaders(init: seq<Line>, blank: string, c: char)
    ensures Headers(init + [Fold(blank + [c], "")]) == Headers(init + [Fold(blank, "")])
  {
    FoldNothing(init, blank);
    FoldNothing(init, blank + [c]);
  }

  lemma LongerBlank(ls: seq<Line>, c: char)
    requires HeaderShape(HeaderLws, ls) && Blank(c)
    ensures var ls' := Init(ls) + [Last(ls).(blank := Last(ls).blank + [c])];
            HeaderShape(HeaderLws, ls') && Tail(HeaderLws, ls') == Tail(HeaderLws, ls) + [c] &&
                Headers(ls') == Headers(ls)
  {
    var init, blank := Init(ls), Last(ls).blank;
    var longer := Fold(blank + [c], "");
    assert Last(ls) == Fold(blank, "") && ls == init + [Fold(blank, "")];
    ReplaceLast(ls, longer);
    LongerBlankHeaders(init, blank, c);
    BlankShown(blank, c);
    LongerLastShown(ls, longer, c);
  }

  lemma BlankShown(blank: string, c: char)
    ensures ShowLine(Fold(blank + [c], "")) == ShowLine(Fold(blank, "")) + [c]
  {
    assert (blank + [c]) + "" == (blank + "") + [c];
  }

  lemma FoldStarts(ls: seq<Line>, c: char)
    requires HeaderShape(HeaderLws, ls) && !Blank(c) && !Control(c)
    ensures var ls' := Init(ls) + [Longer(Last(ls), c)];
            && HeaderShape(HeaderValue, ls') && Tail(HeaderValue, ls') == Tail(HeaderLws, ls) + [c]
            && Headers(ls) != [] && Headers(ls') == AddToValue(Headers(ls), c)
  {
    LongerValue(ls, c);
    ReplaceLast(ls, Longer(Last(ls), c));
    LongerLastShown(ls, Longer(Last(ls), c), c);
  }

  lemma GrowsFold(ls: seq<Line>, req: Request, c: char)
    requires HeaderShape(HeaderLws, ls) && req.headers == Headers(ls) && req.headers != []
    ensures LinesGrown(HeaderLws, ls, req, c)
  {
    if c == '\r' {
    } else if Blank(c) {
      LongerBlank(ls, c);
    } else if !Control(c) {
      FoldStarts(ls, c);
    } else {
      assert NextInHeaders(Parse(HeaderLws, req), c).1 == Rejected;
    }
  }

  lemma EndsLine(ls: seq<Line>)
    requires ls != []
    ensures ShowLines(ls) == (ShowLines(Init(ls)) + ShowLine(Last(ls)) + "\r") + ['\n']
  {
    var shown := ShowLines(Init(ls)) + ShowLine(Last(ls));
    assert shown + "\r\n" == (shown + "\r") + ['\n'];
  }

  lemma GrowsNewline2(ls: seq<Line>, req: Request, c: char)
    requires HeaderShape(Newline2, ls) && req.headers == Headers(ls) && req.headers != []
    ensures LinesGrown(Newline2, ls, req, c)
  {
    if c == '\n' {
      EndsLine(ls);
      assert Tail(HeaderLineStart, ls) == Tail(Newline2, ls) + [c];
    } else {
      assert NextInHeaders(Parse(Newline2, req), c).1 == Rejected;
    }
  }

  lemma GrowsLines(s: State, ls: seq<Line>, req: Request, c: char)
    requires InHeaders(s) && HeaderShape(s, ls) && req.headers == Headers(ls) && LastHeaderThere(Parse(s, req))
    ensures LinesGrown(s, ls, req, c)
  {
    match s
    case HeaderLineStart => GrowsNewHeaderLine(ls, req, c);
    case HeaderName => GrowsName(ls, req, c);
    case SpaceBeforeValue => GrowsSpace(ls, req, c);
    case HeaderValue => GrowsValue(ls, req, c);
    case HeaderLws => GrowsFold(ls, req, c);
    case Newline2 => GrowsNewline2(ls, req, c);
    case _ => DecidesNewline3(ls, req, c);
  }

  /** The last character decides either way. */
  lemma DecidesNewline3(ls: seq<Line>, req: Request, c: char)
    requires HeaderShape(Newline3, ls) && req.headers == Headers(ls)
    ensures LinesGrown(Newline3, ls, req, c)
  {
    assert NextInHeaders(Parse(Newline3, req), c).1 != Indeterminate;
  }

  lemma GrowsHeaders(p: Parse, t: Text, prefix: string, c: char)
    requires LastHeaderThere(p) && ReadSoFar(p, t, prefix) && InHeaders(p.state)
    ensures Grown(p, t, prefix, c)
  {
    GrowsLines(p.state, t.lines, p.req, c);
    var (q, v) := NextInHeaders(p, c);
    if v == Indeterminate {
      LinesAlone(p, q, t, GrowLines(p.state, t.lines, c), prefix, c);
    }
  }

  /** In the header lines, only they and the headers move. */
  lemma LinesAlone(p: Parse, q: Parse, t: Text, ls: seq<Line>, prefix: string, c: char)
    requires LineShape(p.state, t) && HeaderShape(p.state, t.lines) && InHeaders(p.state) && InHeaders(q.state)
    requires Agrees(p.state, t, p.req) && Shown(p.state, t) == prefix
    requires HeaderShape(q.state, ls) && Tail(q.state, ls) == Tail(p.state, t.lines) + [c]
    requires q.req == p.req.(headers := Headers(ls))
    ensures ReadSoFar(q, t.(lines := ls), prefix + [c])
  {
    var t' := t.(lines := ls);
    assert Start(t') == Start(t);
    LongerTail(Start(t), Tail(p.state, t.lines), c);
    assert Shown(q.state, t') == Start(t') + Tail(q.state, ls);
    assert LineShape(q.state, t') && Agrees(q.state, t', q.req);
  }

  lemma LongerTail(start: string, tail: string, c: char)
    ensures (start + tail) + [c] == start + (tail + [c])
  {
  }

  /** Whatever the state, a character that does not decide extends the text read so far. */
  lemma {:induction false} Grows(p: Parse, t: Text, prefix: string, c: char)
    requires LastHeaderThere(p) && ReadSoFar(p, t, prefix)
    ensures Grown(p, t, prefix, c)
  {
    match p.state
    case MajorStart => GrowsMajor(p, t, prefix, c);
    case Major => GrowsMajor(p, t, prefix, c);
    case MinorStart => GrowsMinor(p, t, prefix, c);
    case Minor => GrowsMinor(p, t, prefix, c);
    case VersionSlash => GrowsSlash(p, t, prefix, c);
    case Newline1 => GrowsSlash(p, t, prefix, c);
    case MethodStart => GrowsWords(p, t, prefix, c);
    case Method => GrowsWords(p, t, prefix, c);
    case Uri => GrowsWords(p, t, prefix, c);
    case _ =>
      if InHeaders(p.state) {
        GrowsHeaders(p, t, prefix, c);
      } else {
        GrowsProtocol(p, t, prefix, c);
      }
  }

  lemma LastNewline(t: Text)
    ensures Show(t) == (Start(t) + (ShowLines(t.lines) + "\r")) + ['\n']
  {
    var a, b := Start(t), ShowLines(t.lines);
    assert a + b + "\r\n" == (a + (b + "\r")) + ['\n'];
  }

  lemma OnlyTheLastAccepts(p: Parse, c: char)
    requires LastHeaderThere(p) && Next(p, c).1 == Accepted
    ensures p.state == Newline3 && c == '\n' && Next(p, c).0.req == p.req
  {
  }

  lemma AcceptsWhole(p: Parse, t: Text, prefix: string, c: char)
    requires LastHeaderThere(p) && ReadSoFar(p, t, prefix) && Next(p, c).1 == Accepted
    ensures WellFormed(t) && Show(t) == prefix + [c] && Next(p, c).0.req == Denote(t)
  {
    OnlyTheLastAccepts(p, c);
    LastNewline(t);
    assert prefix == Start(t) + (ShowLines(t.lines) + "\r");
  }

  /** What an outcome says of the input taken: a whole request if accepted, a part of one if more is needed. */
  predicate Justified(o: Outcome, t: Text, taken: string) {
    && (o.verdict == Indeterminate ==> ReadSoFar(o.parse, t, taken))
    && (o.verdict == Accepted ==> WellFormed(t) && Show(t) == taken && o.parse.req == Denote(t))
  }

  lemma FeedStep(p: Parse, s: string, q: Parse)
    requires LastHeaderThere(p) && LastHeaderThere(q) && s != "" && Next(p, s[0]) == (q, Indeterminate)
    ensures Feed(p, s) == Feed(q, s[1..]).(consumed := Feed(q, s[1..]).consumed + 1)
  {
  }

  lemma FeedStop(p: Parse, s: string)
    requires LastHeaderThere(p) && s != "" && Next(p, s[0]).1 != Indeterminate
    ensures Feed(p, s) == Outcome(Next(p, s[0]).0, Next(p, s[0]).1, 1)
  {
  }

  lemma TakeOne(prefix: string, s: string, n: nat)
    requires s != "" && n < |s|
    ensures prefix + s[..n + 1] == (prefix + [s[0]]) + s[1..][..n]
  {
  }

  /** What the rest of the input justifies, the whole of it does. */
  lemma JustifiedMore(p: Parse, prefix: string, s: string, q: Parse, t: Text)
    requires LastHeaderThere(p) && LastHeaderThere(q) && s != "" && Next(p, s[0]) == (q, Indeterminate)
    requires var o := Feed(q, s[1..]); Justified(o, t, (prefix + [s[0]]) + s[1..][..o.consumed])
    ensures Justified(Feed(p, s), t, prefix + s[..Feed(p, s).consumed])
  {
    FeedStep(p, s, q);
    TakeOne(prefix, s, Feed(q, s[1..]).consumed);
  }

  lemma JustifiedStop(p: Parse, t: Text, prefix: string, s: string)
    requires LastHeaderThere(p) && ReadSoFar(p, t, prefix) && s != "" && Next(p, s[0]).1 != Indeterminate
    ensures Justified(Feed(p, s), t, prefix + s[..Feed(p, s).consumed])
  {
    FeedStop(p, s);
    assert prefix + s[..1] == prefix + [s[0]];
    DecidedIsJustified(p, t, prefix, s[0]);
  }

  lemma DecidedIsJustified(p: Parse, t: Text, prefix: string, c: char)
    requires LastHeaderThere(p) && ReadSoFar(p, t, prefix) && Next(p, c).1 != Indeterminate
    ensures Justified(Outcome(Next(p, c).0, Next(p, c).1, 1), t, prefix + [c])
  {
    if Next(p, c).1 == Accepted {
      AcceptsWhole(p, t, prefix, c);
    }
  }

  /** Whatever was read is a text. */
  lemma {:induction false} FeedReads(p: Parse, t: Text, prefix: string, s: string) returns (t': Text)
    requires LastHeaderThere(p) && ReadSoFar(p, t, prefix)
    ensures Justified(Feed(p, s), t', prefix + s[..Feed(p, s).consumed])
    decreases |s|
  {
    t' := t;
    if s == "" {
      assert prefix + s[..0] == prefix;
    } else if Next(p, s[0]).1 == Indeterminate {
      var q := Next(p, s[0]).0;
      Grows(p, t, prefix, s[0]);
      t' := FeedReads(q, Grow(p.state, t, s[0]), prefix + [s[0]], s[1..]);
      JustifiedMore(p, prefix, s, q, t');
    } else {
      JustifiedStop(p, t, prefix, s);
    }
  }

  /** A new connection's parse: the version numbers of the request are whatever the memory held. */
  function Initial(major: int, minor: int): Parse {
    Parse(MethodStart, Request("", "", major, minor, []))
  }

  const NO_TEXT := Text("", "", "", "", [])

  lemma InitialReadsNothing(major: int, minor: int)
    ensures ReadSoFar(Initial(major, minor), NO_TEXT, "")
  {
  }
}
