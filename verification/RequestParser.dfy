/**
 The push parser for HTTP requests: one character at a time, fed from network chunks of any size.
 Bytes above 127 are characters above '\U{7F}'.
 */
module RequestParser {
  import opened Decimal
  import opened RequestAlphabet

  datatype Header = Header(name: string, value: string)

  datatype Request = Request(verb: string, uri: string, major: int, minor: int, headers: seq<Header>)

  datatype State =
    | MethodStart | Method | UriStart | Uri
    | VersionH | VersionT1 | VersionT2 | VersionP | VersionSlash
    | MajorStart | Major | MinorStart | Minor
    | Newline1 | HeaderLineStart | HeaderLws | HeaderName | SpaceBeforeValue | HeaderValue
    | Newline2 | Newline3

  datatype Verdict = Accepted | Rejected | Indeterminate

  /** The parser's state together with the request it is filling in. */
  datatype Parse = Parse(state: State, req: Request)

  /** Where a parse stands after some input, and how many characters it took. */
  datatype Outcome = Outcome(parse: Parse, verdict: Verdict, consumed: nat)

  // ----- character classes

  predicate IsChar(c: char) {
    c <= '\U{7F}'
  }

  predicate IsCtl(c: char): (b: bool)
    ensures b <==> Control(c)
  {
    c <= '\U{1F}' || c == '\U{7F}'
  }

  predicate IsTspecial(c: char) {
    || c == '(' || c == ')' || c == '<' || c == '>' || c == '@'
    || c == ',' || c == ';' || c == ':' || c == '\\' || c == '\"'
    || c == '/' || c == '[' || c == ']' || c == '?' || c == '='
    || c == '{' || c == '}' || c == ' ' || c == '\t'
  }

  predicate IsTokenChar(c: char): (b: bool)
    ensures b <==> TokenLetter(c)
  {
    IsChar(c) && !IsCtl(c) && !IsTspecial(c)
  }

  predicate IsBlank(c: char): (b: bool)
    ensures b <==> Blank(c)
  {
    c == ' ' || c == '\t'
  }

  // ----- one character

  /** The states in which the last header is about to be, or has just been, written to. */
  predicate UsesLastHeader(s: State) {
    s == HeaderLws || s == HeaderName || s == SpaceBeforeValue || s == HeaderValue || s == Newline2
  }

  predicate LastHeaderThere(p: Parse) {
    UsesLastHeader(p.state) ==> p.req.headers != []
  }

  function AddToName(headers: seq<Header>, c: char): seq<Header>
    requires headers != []
  {
    var last := headers[|headers| - 1];
    headers[|headers| - 1 := last.(name := last.name + [c])]
  }

  function AddToValue(headers: seq<Header>, c: char): seq<Header>
    requires headers != []
  {
    var last := headers[|headers| - 1];
    headers[|headers| - 1 := last.(value := last.value + [c])]
  }

  function Go(s: State, req: Request): (Parse, Verdict) {
    (Parse(s, req), Indeterminate)
  }

  function Fail(p: Parse): (Parse, Verdict) {
    (p, Rejected)
  }

  function Expect(p: Parse, c: char, wanted: char, s: State): (Parse, Verdict) {
    if c == wanted then Go(s, p.req) else Fail(p)
  }

  /** The request line. */
  function NextInLine(p: Parse, c: char): (Parse, Verdict) {
    var req := p.req;
    match p.state
    case MethodStart => if !IsTokenChar(c) then Fail(p) else Go(Method, req.(verb := req.verb + [c]))
    case Method =>
      if c == ' ' then Go(Uri, req)
      else if !IsTokenChar(c) then Fail(p)
      else Go(Method, req.(verb := req.verb + [c]))
    case UriStart => if IsCtl(c) then Fail(p) else Go(Uri, req.(uri := req.uri + [c]))
    case Uri =>
      if c == ' ' then Go(VersionH, req)
      else if IsCtl(c) then Fail(p)
      else Go(Uri, req.(uri := req.uri + [c]))
    case VersionH => Expect(p, c, 'H', VersionT1)
    case VersionT1 => Expect(p, c, 'T', VersionT2)
    case VersionT2 => Expect(p, c, 'T', VersionP)
    case VersionP => Expect(p, c, 'P', VersionSlash)
    case VersionSlash => if c == '/' then Go(MajorStart, req.(major := 0, minor := 0)) else Fail(p)
    case MajorStart => if IsDigit(c) then Go(Major, req.(major := req.major * 10 + DigitValue(c))) else Fail(p)
    case Major =>
      if c == '.' then Go(MinorStart, req)
      else if IsDigit(c) then Go(Major, req.(major := req.major * 10 + DigitValue(c)))
      else Fail(p)
    case MinorStart => if IsDigit(c) then Go(Minor, req.(minor := req.minor * 10 + DigitValue(c))) else Fail(p)
    case Minor =>
      if c == '\r' then Go(Newline1, req)
      else if IsDigit(c) then Go(Minor, req.(minor := req.minor * 10 + DigitValue(c)))
      else Fail(p)
    case Newline1 => Expect(p, c, '\n', HeaderLineStart)
    case _ => Fail(p)
  }

  predicate InHeaders(s: State) {
    s == HeaderLineStart || s == Newline3 || UsesLastHeader(s)
  }

  /** The header lines and the blank line after them. */
  function NextInHeaders(p: Parse, c: char): (Parse, Verdict)
    requires InHeaders(p.state) && LastHeaderThere(p)
  {
    var req := p.req;
    match p.state
    case HeaderLineStart =>
      if c == '\r' then Go(Newline3, req)
      else if req.headers != [] && IsBlank(c) then Go(HeaderLws, req)
      else if !IsTokenChar(c) then Fail(p)
      else Go(HeaderName, req.(headers := req.headers + [Header([c], "")]))
    case HeaderLws =>
      if c == '\r' then Go(Newline2, req)
      else if IsBlank(c) then Go(HeaderLws, req)
      else if IsCtl(c) then Fail(p)
      else Go(HeaderValue, req.(headers := AddToValue(req.headers, c)))
    case HeaderName =>
      if c == ':' then Go(SpaceBeforeValue, req)
      else if !IsTokenChar(c) then Fail(p)
      else Go(HeaderName, req.(headers := AddToName(req.headers, c)))
    case SpaceBeforeValue => Expect(p, c, ' ', HeaderValue)
    case HeaderValue =>
      if c == '\r' then Go(Newline2, req)
      else if IsCtl(c) then Fail(p)
      else Go(HeaderValue, req.(headers := AddToValue(req.headers, c)))
    case Newline2 => Expect(p, c, '\n', HeaderLineStart)
    case _ => (p, if c == '\n' then Accepted else Rejected)
  }

  function Next(p: Parse, c: char): (r: (Parse, Verdict))
    requires LastHeaderThere(p)
    ensures LastHeaderThere(r.0)
  {
    if InHeaders(p.state) then NextInHeaders(p, c) else NextInLine(p, c)
  }

  // ----- many characters

  /** Feeding input until it ends or a character decides. */
  function Feed(p: Parse, s: string): (o: Outcome)
    requires LastHeaderThere(p)
    ensures LastHeaderThere(o.parse)
    ensures o.consumed <= |s|
    ensures o.verdict == Indeterminate ==> o.consumed == |s|
    decreases |s|
  {
    if s == "" then Outcome(p, Indeterminate, 0)
    else
      var (q, v) := Next(p, s[0]);
      if v != Indeterminate then Outcome(q, v, 1)
      else
        var o := Feed(q, s[1..]);
        o.(consumed := o.consumed + 1)
  }

  function Flatten(chunks: seq<string>): string {
    if chunks == [] then "" else chunks[0] + Flatten(chunks[1..])
  }

  /** Feeding chunks as they arrive, until one of them decides. */
  function FeedChunks(p: Parse, chunks: seq<string>): Outcome
    requires LastHeaderThere(p)
    decreases |chunks|
  {
    if chunks == [] then Outcome(p, Indeterminate, 0)
    else
      var o := Feed(p, chunks[0]);
      if o.verdict != Indeterminate then o
      else
        var rest := FeedChunks(o.parse, chunks[1..]);
        rest.(consumed := o.consumed + rest.consumed)
  }

  /** Input after an undecided part is fed to the parse that part left; after a decided part it is not read. */
  lemma {:induction false} FeedSplits(p: Parse, a: string, b: string)
    requires LastHeaderThere(p)
    ensures Feed(p, a).verdict != Indeterminate ==> Feed(p, a + b) == Feed(p, a)
    ensures Feed(p, a).verdict == Indeterminate ==>
              var rest := Feed(Feed(p, a).parse, b);
              Feed(p, a + b) == rest.(consumed := |a| + rest.consumed)
    decreases |a|
  {
    if a == "" {
      assert a + b == b;
    } else {
      assert (a + b)[0] == a[0] && (a + b)[1..] == a[1..] + b;
      var (q, v) := Next(p, a[0]);
      if v == Indeterminate {
        FeedSplits(q, a[1..], b);
      }
    }
  }

  /**
   However the bytes are cut into chunks, the verdict, the request and the number of bytes taken are those
   of one call on all of them.
   */
  lemma {:induction false} ChunksDoNotMatter(p: Parse, chunks: seq<string>)
    requires LastHeaderThere(p)
    ensures FeedChunks(p, chunks) == Feed(p, Flatten(chunks))
    decreases |chunks|
  {
    if chunks != [] {
      FeedSplits(p, chunks[0], Flatten(chunks[1..]));
      var o := Feed(p, chunks[0]);
      if o.verdict == Indeterminate {
        ChunksDoNotMatter(o.parse, chunks[1..]);
      }
    }
  }

  // ----- the objects of the server

  class HttpRequest {
    var verb: string
    var uri: string
    var major: int
    var minor: int
    var headers: seq<Header>

    ghost function Value(): Request
      reads this
    {
      Request(verb, uri, major, minor, headers)
    }
  }

  class Parser {
    var state: State

    constructor ()
      ensures state == MethodStart
    {
      state := MethodStart;
    }

    method Consume(req: HttpRequest, input: char) returns (v: Verdict)
      requires LastHeaderThere(Parse(state, req.Value()))
      modifies this, req
      ensures (Parse(state, req.Value()), v) == Next(Parse(old(state), old(req.Value())), input)
    {
      if InHeaders(state) {
        v := ConsumeInHeaders(req, input);
      } else {
        v := ConsumeInLine(req, input);
      }
    }

    /** The cases of the request line. */
    method ConsumeInLine(req: HttpRequest, input: char) returns (v: Verdict)
      requires !InHeaders(state)
      modifies this, req
      ensures (Parse(state, req.Value()), v) == NextInLine(Parse(old(state), old(req.Value())), input)
    {
      match state {
        case MethodStart =>
          if !IsChar(input) || IsCtl(input) || IsTspecial(input) {
            return Rejected;
          }
          state := Method;
          req.verb := req.verb + [input];
        case Method =>
          if input == ' ' {
            state := Uri;
          } else if !IsChar(input) || IsCtl(input) || IsTspecial(input) {
            return Rejected;
          } else {
            req.verb := req.verb + [input];
          }
        case UriStart =>
          if IsCtl(input) {
            return Rejected;
          }
          state := Uri;
          req.uri := req.uri + [input];
        case Uri =>
          if input == ' ' {
            state := VersionH;
          } else if IsCtl(input) {
            return Rejected;
          } else {
            req.uri := req.uri + [input];
          }
        case VersionH =>
          if input != 'H' {
            return Rejected;
          }
          state := VersionT1;
        case VersionT1 =>
          if input != 'T' {
            return Rejected;
          }
          state := VersionT2;
        case VersionT2 =>
          if input != 'T' {
            return Rejected;
          }
          state := VersionP;
        case VersionP =>
          if input != 'P' {
            return Rejected;
          }
          state := VersionSlash;
        case VersionSlash =>
          if input != '/' {
            return Rejected;
          }
          req.major := 0;
          req.minor := 0;
          state := MajorStart;
        case MajorStart =>
          if !IsDigit(input) {
            return Rejected;
          }
          req.major := req.major * 10 + DigitValue(input);
          state := Major;
        case Major =>
          if input == '.' {
            state := MinorStart;
          } else if IsDigit(input) {
            req.major := req.major * 10 + DigitValue(input);
          } else {
            return Rejected;
          }
        case MinorStart =>
          if !IsDigit(input) {
            return Rejected;
          }
          req.minor := req.minor * 10 + DigitValue(input);
          state := Minor;
        case Minor =>
          if input == '\r' {
            state := Newline1;
          } else if IsDigit(input) {
            req.minor := req.minor * 10 + DigitValue(input);
          } else {
            return Rejected;
          }
        case Newline1 =>
          if input != '\n' {
            return Rejected;
          }
          state := HeaderLineStart;
        case _ =>
          return Rejected;
      }
      v := Indeterminate;
    }

    /** The cases of the header lines. */
    method ConsumeInHeaders(req: HttpRequest, input: char) returns (v: Verdict)
      requires InHeaders(state) && LastHeaderThere(Parse(state, req.Value()))
      modifies this, req
      ensures (Parse(state, req.Value()), v) == NextInHeaders(Parse(old(state), old(req.Value())), input)
    {
      match state {
        case HeaderLineStart =>
          if input == '\r' {
            state := Newline3;
          } else if req.headers != [] && (input == ' ' || input == '\t') {
            state := HeaderLws;
          } else if !IsChar(input) || IsCtl(input) || IsTspecial(input) {
            return Rejected;
          } else {
            req.headers := req.headers + [Header("", "")];
            req.headers := AddToName(req.headers, input);
            assert "" + [input] == [input];
            assert req.headers == old(req.headers) + [Header([input], "")];
            state := HeaderName;
          }
        case HeaderLws =>
          if input == '\r' {
            state := Newline2;
          } else if input == ' ' || input == '\t' {
          } else if IsCtl(input) {
            return Rejected;
          } else {
            state := HeaderValue;
            req.headers := AddToValue(req.headers, input);
          }
        case HeaderName =>
          if input == ':' {
            state := SpaceBeforeValue;
          } else if !IsChar(input) || IsCtl(input) || IsTspecial(input) {
            return Rejected;
          } else {
            req.headers := AddToName(req.headers, input);
          }
        case SpaceBeforeValue =>
          if input != ' ' {
            return Rejected;
          }
          state := HeaderValue;
        case HeaderValue =>
          if input == '\r' {
            state := Newline2;
          } else if IsCtl(input) {
            return Rejected;
          } else {
            req.headers := AddToValue(req.headers, input);
          }
        case Newline2 =>
          if input != '\n' {
            return Rejected;
          }
          state := HeaderLineStart;
        case _ =>
          return if input == '\n' then Accepted else Rejected;
      }
      v := Indeterminate;
    }

    /** The whole outcome of feeding the buffer, and where it stopped. */
    method ParseBuffer(req: HttpRequest, data: string) returns (v: Verdict, consumed: nat)
      requires LastHeaderThere(Parse(state, req.Value()))
      modifies this, req
      ensures Outcome(Parse(state, req.Value()), v, consumed) == Feed(Parse(old(state), old(req.Value())), data)
    {
      consumed := 0;
      while consumed != |data|
        invariant consumed <= |data|
        invariant LastHeaderThere(Parse(state, req.Value()))
        invariant var rest := Feed(Parse(state, req.Value()), data[consumed..]);
                  Feed(Parse(old(state), old(req.Value())), data) == rest.(consumed := consumed + rest.consumed)
        decreases |data| - consumed
      {
        var result := Consume(req, data[consumed]);
        consumed := consumed + 1;
        if result != Indeterminate {
          return result, consumed;
        }
      }
      v := Indeterminate;
    }
  }

  /** A connection's parser and request, across the buffers its reads deliver. */
  class Connection {
    const parser: Parser
    const request: HttpRequest

    /** A fresh connection: no text in the request yet, its version numbers arbitrary. */
    constructor ()
      ensures fresh(parser) && fresh(request)
      ensures parser.state == MethodStart
      ensures request.verb == request.uri == "" && request.headers == []
    {
      parser := new Parser();
      var r := new HttpRequest;
      r.verb, r.uri, r.headers := "", "", [];
      request := r;
    }

    /** Reads are handled until one of them decides; later chunks are then not looked at. */
    method HandleReads(chunks: seq<string>) returns (v: Verdict, consumed: nat)
      requires LastHeaderThere(Parse(parser.state, request.Value()))
      modifies parser, request
      ensures Outcome(Parse(parser.state, request.Value()), v, consumed) ==
              Feed(Parse(old(parser.state), old(request.Value())), Flatten(chunks))
    {
      ghost var start := Parse(parser.state, request.Value());
      var i := 0;
      v, consumed := Indeterminate, 0;
      while i < |chunks| && v == Indeterminate
        invariant 0 <= i <= |chunks|
        invariant LastHeaderThere(Parse(parser.state, request.Value()))
        invariant v == Indeterminate ==>
                    var rest := FeedChunks(Parse(parser.state, request.Value()), chunks[i..]);
                    FeedChunks(start, chunks) == rest.(consumed := consumed + rest.consumed)
        invariant v != Indeterminate ==>
                  FeedChunks(start, chunks) == Outcome(Parse(parser.state, request.Value()), v, consumed)
      {
        assert chunks[i..][1..] == chunks[i + 1..];
        var n;
        v, n := parser.ParseBuffer(request, chunks[i]);
        consumed := consumed + n;
        i := i + 1;
      }
      ChunksDoNotMatter(start, chunks);
    }
  }
}
