/**
 The incremental request parser of libel/net/http/http_context.{h,cpp}, a subset of the request
 line of section 3.1.1 of RFC 7230. Header fields are recognised but, as in the source, not kept.
 */
module HttpParser {
  import opened Bytes
  import opened Buffers
  import opened Sequences

  const SPACE: Byte := 32
  const COLON: Byte := 58
  const CRLF: seq<Byte> := [13, 10]

  datatype Method = Invalid | Get | Post | Head | Put | Delete
  datatype Version = Unknown | Http10 | Http11
  datatype State = ExpectRequestLine | ExpectHeaders | ExpectBody | GotAll
  datatype Request = Request(verb: Method, version: Version, path: seq<Byte>, query: seq<Byte>)
  datatype Context = Context(state: State, request: Request)

  const EMPTY_REQUEST := Request(Invalid, Unknown, [], [])
  const FRESH := Context(ExpectRequestLine, EMPTY_REQUEST)

  /** What one call of `parseRequest` may be entered with: the loop has no way out of `GotAll`. */
  predicate Ready(ctx: Context) {
    ctx.state != GotAll && (ctx.state == ExpectRequestLine ==> ctx.request.verb == Invalid)
  }

  /** `std::find`: the first position of `b`, or the length. */
  function Find(s: seq<Byte>, b: Byte): (i: nat)
    ensures i <= |s| && (i < |s| ==> s[i] == b)
    ensures forall j :: 0 <= j < i ==> s[j] != b
  {
    if s == [] || s[0] == b then 0 else 1 + Find(s[1..], b)
  }

  lemma FindAt(s: seq<Byte>, b: Byte, i: nat)
    requires i < |s| && s[i] == b && forall j :: 0 <= j < i ==> s[j] != b
    ensures Find(s, b) == i
  {
  }

  function MethodText(m: Method): seq<Byte>
    requires m != Invalid
  {
    match m
    case Get => [71, 69, 84]
    case Post => [80, 79, 83, 84]
    case Head => [72, 69, 65, 68]
    case Put => [80, 85, 84]
    case Delete => [68, 69, 76, 69, 84, 69]
  }

  function MethodOf(s: seq<Byte>): Method {
    if s == MethodText(Get) then Get
    else if s == MethodText(Post) then Post
    else if s == MethodText(Head) then Head
    else if s == MethodText(Put) then Put
    else if s == MethodText(Delete) then Delete
    else Invalid
  }

  const HTTP_1: seq<Byte> := [72, 84, 84, 80, 47, 49, 46]

  function VersionText(v: Version): seq<Byte>
    requires v != Unknown
  {
    HTTP_1 + [if v == Http11 then 49 else 48]
  }

  /** The version, when `s` is eight bytes long and ends in a known digit. */
  function VersionOf(s: seq<Byte>): Version {
    if |s| == 8 && s[..7] == HTTP_1 then
      if s[7] == 49 then Http11 else if s[7] == 48 then Http10 else Unknown
    else Unknown
  }

  /** The part of `processRequestLine` behind the method: path and version. */
  function ProcessTarget(request: Request, target: seq<Byte>): (bool, Request) {
    var end := Find(target, SPACE);
    if end == |target| then (false, request)
    else
      // The source looks for the query behind another space, which is never there.
      var question := Find(target[..end], SPACE);
      var withPath :=
        if question != end then request.(path := target[..question], query := target[question..end])
        else request.(path := target[..end]);
      var version := VersionOf(target[end + 1..]);
      if version == Unknown then (false, withPath) else (true, withPath.(version := version))
  }

  /** `processRequestLine`: the fields already set stay set when a later part of the line fails. */
  function ProcessRequestLine(request: Request, line: seq<Byte>): (bool, Request) {
    var space := Find(line, SPACE);
    if space == |line| then (false, request)
    else
      var verb := MethodOf(line[..space]);
      var withVerb := request.(verb := verb);
      if verb == Invalid then (false, withVerb) else ProcessTarget(withVerb, line[space + 1..])
  }

  /** What a complete line does: go on, end the request, or be refused. */
  datatype Step = Next(ctx: Context) | Complete(ctx: Context) | Refused(ctx: Context)

  function OnLine(ctx: Context, line: seq<Byte>): (step: Step)
    requires Ready(ctx) && ctx.state != ExpectBody
    ensures step.Next? ==> step.ctx.state == ExpectHeaders
    ensures step.Complete? <==> step.ctx.state == GotAll
  {
    if ctx.state == ExpectRequestLine then
      var (ok, request) := ProcessRequestLine(ctx.request, line);
      if ok then Next(Context(ExpectHeaders, request)) else Refused(ctx.(request := request))
    else if Find(line, COLON) != |line| then Next(ctx)
    else Complete(ctx.(state := GotAll))
  }

  datatype Result = Result(ok: bool, ctx: Context, left: seq<Byte>)

  /** One call of `parseRequest` on a buffer holding `buf`. */
  function Parse(ctx: Context, buf: seq<Byte>): (r: Result)
    requires Ready(ctx)
    ensures r.ok && r.ctx.state != GotAll ==> Ready(r.ctx)
    ensures |r.left| <= |buf| && r.left == buf[|buf| - |r.left|..]
    decreases |buf|
  {
    var crlf := FirstCrlf(buf);
    if ctx.state == ExpectBody || crlf == None then Result(true, ctx, buf)
    else
      var rest := buf[crlf.value + 2..];
      match OnLine(ctx, buf[..crlf.value])
      case Next(next) => Parse(next, rest)
      case Complete(final) => Result(true, final, rest)
      case Refused(final) => Result(false, final, buf)
  }

  lemma ParseLine(ctx: Context, buf: seq<Byte>, i: nat)
    requires Ready(ctx) && ctx.state != ExpectBody && FirstCrlf(buf) == Some(i)
    ensures var step := OnLine(ctx, buf[..i]);
            && (step.Next? ==> Ready(step.ctx) && Parse(ctx, buf) == Parse(step.ctx, buf[i + 2..]))
            && (step.Complete? ==> Parse(ctx, buf) == Result(true, step.ctx, buf[i + 2..]))
            && (step.Refused? ==> Parse(ctx, buf) == Result(false, step.ctx, buf))
  {
  }

  /** What parsing will come to from the middle of a call. */
  function Onward(ok: bool, ctx: Context, buf: seq<Byte>): Result
    requires ok && ctx.state != GotAll ==> Ready(ctx)
  {
    if ok && ctx.state != GotAll then Parse(ctx, buf) else Result(ok, ctx, buf)
  }

  class HttpContext {
    var state: State
    var request: Request

    function Value(): Context
      reads this
    {
      Context(state, request)
    }

    constructor ()
      ensures Value() == FRESH
    {
      state, request := ExpectRequestLine, EMPTY_REQUEST;
    }

    method Reset()
      modifies this
      ensures Value() == FRESH
    {
      state, request := ExpectRequestLine, EMPTY_REQUEST;
    }

    /** The part of the loop that handles the bytes up to a CR LF. */
    method HandleLine(line: seq<Byte>) returns (ok: bool)
      requires Ready(Value()) && state != ExpectBody
      modifies this
      ensures var step := OnLine(old(Value()), line); Value() == step.ctx && ok == !step.Refused?
      ensures ok && state != GotAll ==> OnLine(old(Value()), line).Next?
    {
      ok := true;
      if state == ExpectRequestLine {
        var (success, updated) := ProcessRequestLine(request, line);
        ok, request := success, updated;
        if ok {
          state := ExpectHeaders;
        }
      } else {
        var colon := Find(line, COLON);
        if colon == |line| {
          state := GotAll;
        }
      }
    }

    /** One round of the loop, with a CR LF found at `crlf`. */
    method TakeLine(buffer: Buffer, crlf: nat) returns (ok: bool)
      requires buffer.Valid() && Ready(Value()) && state != ExpectBody
      requires FirstCrlf(buffer.Contents()) == Some(crlf)
      modifies this, buffer
      ensures buffer.Valid() && (ok ==> |buffer.Contents()| < |old(buffer.Contents())|)
      ensures ok && state != GotAll ==> Ready(Value())
      ensures Onward(ok, Value(), buffer.Contents()) == Parse(old(Value()), old(buffer.Contents()))
    {
      ParseLine(Value(), buffer.Contents(), crlf);
      ok := HandleLine(buffer.Contents()[..crlf]);
      if ok {
        buffer.Retrieve(crlf + 2);
      }
    }

    method ParseRequest(buffer: Buffer) returns (ok: bool)
      requires buffer.Valid() && Ready(Value())
      modifies this, buffer
      ensures buffer.Valid()
      ensures Result(ok, Value(), buffer.Contents()) == Parse(old(Value()), old(buffer.Contents()))
    {
      ok := true;
      while ok && state != ExpectBody && state != GotAll
        invariant buffer.Valid() && (ok && state != GotAll ==> Ready(Value()))
        invariant Onward(ok, Value(), buffer.Contents()) == Parse(old(Value()), old(buffer.Contents()))
        decreases ok, |buffer.Contents()|
      {
        var crlf := buffer.FindCRLF();
        if crlf == None {
          break;
        }
        ok := TakeLine(buffer, crlf.value);
      }
    }
  }

  // ---------- Any stream, any cut ----------

  lemma CrlfIsStable(x: seq<Byte>, y: seq<Byte>)
    requires FirstCrlf(x).Some?
    ensures FirstCrlf(x + y) == FirstCrlf(x)
  {
    var i := FirstCrlf(x).value;
    assert forall j :: 0 <= j <= i ==> (CrlfAt(x + y, j) <==> CrlfAt(x, j));
    FirstCrlfIs(x + y, Some(i));
  }

  predicate Finished(r: Result) {
    !r.ok || r.ctx.state == GotAll
  }

  /** Parsing `x` and then `y` is parsing `x + y`, for every byte stream. */
  lemma {:induction false} ParseInTwo(ctx: Context, x: seq<Byte>, y: seq<Byte>)
    requires Ready(ctx)
    ensures var r := Parse(ctx, x);
            Parse(ctx, x + y) ==
            if Finished(r) then Result(r.ok, r.ctx, r.left + y) else Parse(r.ctx, r.left + y)
    decreases |x|
  {
    var crlf := FirstCrlf(x);
    if ctx.state == ExpectBody || crlf == None {
    } else {
      CrlfIsStable(x, y);
      var i := crlf.value;
      assert (x + y)[..i] == x[..i] && (x + y)[i + 2..] == x[i + 2..] + y;
      ParseLine(ctx, x, i);
      ParseLine(ctx, x + y, i);
      var step := OnLine(ctx, x[..i]);
      if step.Next? {
        ParseInTwo(step.ctx, x[i + 2..], y);
      }
    }
  }

  /**
   Chunks arriving one after another until the request is complete or refused; what has not been
   handed to the parser by then counts as left over.
   */
  function Feed(ctx: Context, held: seq<Byte>, chunks: seq<seq<Byte>>): Result
    requires Ready(ctx)
    decreases |chunks|
  {
    if chunks == [] then Result(true, ctx, held)
    else
      var r := Parse(ctx, held + chunks[0]);
      if Finished(r) then Result(r.ok, r.ctx, r.left + Flatten(chunks[1..]))
      else Feed(r.ctx, r.left, chunks[1..])
  }

  predicate Quiet(ctx: Context, held: seq<Byte>)
    requires Ready(ctx)
  {
    Parse(ctx, held) == Result(true, ctx, held)
  }

  /** One line of a call: what remains is a call on less, unless the call is over. */
  lemma AfterOneLine(ctx: Context, buf: seq<Byte>) returns (over: bool, next: Context, rest: seq<Byte>)
    requires Ready(ctx)
    ensures over ==> Finished(Parse(ctx, buf)) || Quiet(ctx, buf)
    ensures !over ==> Ready(next) && |rest| < |buf| && Parse(ctx, buf) == Parse(next, rest)
  {
    var crlf := FirstCrlf(buf);
    over, next, rest := true, ctx, buf;
    if ctx.state != ExpectBody && crlf.Some? {
      ParseLine(ctx, buf, crlf.value);
      var step := OnLine(ctx, buf[..crlf.value]);
      over, next, rest := !step.Next?, step.ctx, buf[crlf.value + 2..];
    }
  }

  lemma {:induction false} LeavesQuiet(ctx: Context, buf: seq<Byte>)
    requires Ready(ctx)
    ensures var r := Parse(ctx, buf); !Finished(r) ==> Quiet(r.ctx, r.left)
    decreases |buf|
  {
    var over, next, rest := AfterOneLine(ctx, buf);
    if over {
    } else {
      LeavesQuiet(next, rest);
    }
  }

  /** How the stream is cut changes neither verdict, nor state, nor request, nor what is left over. */
  lemma {:induction false} CutsAreInvisible(ctx: Context, held: seq<Byte>, chunks: seq<seq<Byte>>)
    requires Ready(ctx) && Quiet(ctx, held)
    ensures Feed(ctx, held, chunks) == Parse(ctx, held + Flatten(chunks))
    decreases |chunks|
  {
    if chunks == [] {
      assert held + Flatten(chunks) == held;
    } else {
      var x, rest := held + chunks[0], Flatten(chunks[1..]);
      assert held + Flatten(chunks) == x + rest;
      ParseInTwo(ctx, x, rest);
      LeavesQuiet(ctx, x);
      var r := Parse(ctx, x);
      if !Finished(r) {
        CutsAreInvisible(r.ctx, r.left, chunks[1..]);
      }
    }
  }

  lemma ChunkedEqualsWhole(chunks: seq<seq<Byte>>)
    ensures Feed(FRESH, [], chunks) == Parse(FRESH, Flatten(chunks))
  {
    CutsAreInvisible(FRESH, [], chunks);
    assert [] + Flatten(chunks) == Flatten(chunks);
  }

  // ---------- The language accepted ----------

  function RequestLine(m: Method, path: seq<Byte>, v: Version): seq<Byte>
    requires m != Invalid && v != Unknown
  {
    MethodText(m) + ([SPACE] + (path + ([SPACE] + VersionText(v))))
  }

  lemma JoinAtSpace(x: seq<Byte>, y: seq<Byte>)
    requires SPACE !in x
    ensures var s := x + ([SPACE] + y);
            |s| == |x| + 1 + |y| && Find(s, SPACE) == |x| && s[..|x|] == x && s[|x| + 1..] == y
  {
    FindAt(x + ([SPACE] + y), SPACE, |x|);
  }

  lemma SplitAt(s: seq<Byte>, i: nat)
    requires i < |s|
    ensures s == s[..i] + ([s[i]] + s[i + 1..])
  {
  }

  lemma SplitAtSpace(s: seq<Byte>)
    requires Find(s, SPACE) < |s|
    ensures var i := Find(s, SPACE); SPACE !in s[..i] && s == s[..i] + ([SPACE] + s[i + 1..])
  {
    SplitAt(s, Find(s, SPACE));
  }

  lemma MethodRoundTrip(m: Method)
    requires m != Invalid
    ensures MethodOf(MethodText(m)) == m && SPACE !in MethodText(m)
  {
  }

  lemma MethodIsText(s: seq<Byte>)
    requires MethodOf(s) != Invalid
    ensures s == MethodText(MethodOf(s))
  {
  }

  lemma VersionRoundTrip(v: Version)
    requires v != Unknown
    ensures VersionOf(VersionText(v)) == v
  {
    assert VersionText(v)[..7] == HTTP_1;
  }

  lemma VersionIsText(s: seq<Byte>)
    requires VersionOf(s) != Unknown
    ensures s == VersionText(VersionOf(s))
  {
    assert s == s[..7] + [s[7]];
  }

  function Ascii(text: string): (s: seq<Byte>)
    ensures |s| == |text|
  {
    seq(|text|, i requires 0 <= i < |text| => text[i] as int % 256)
  }

  /** The words of section 3.1.1 of RFC 7230 that the parser knows, letter by letter. */
  lemma KnownMethods()
    ensures MethodText(Get) == Ascii("GET") && MethodText(Post) == Ascii("POST") && MethodText(Head) == Ascii("HEAD")
    ensures MethodText(Put) == Ascii("PUT") && MethodText(Delete) == Ascii("DELETE")
  {
  }

  lemma KnownVersions()
    ensures VersionText(Http10) == Ascii("HTTP/1.0") && VersionText(Http11) == Ascii("HTTP/1.1")
    ensures [SPACE] == Ascii(" ") && [COLON] == Ascii(":") && CRLF == Ascii("\r\n")
  {
  }

  lemma AcceptsTarget(request: Request, path: seq<Byte>, v: Version)
    requires v != Unknown && SPACE !in path
    ensures ProcessTarget(request, path + ([SPACE] + VersionText(v))) == (true, request.(path := path, version := v))
  {
    JoinAtSpace(path, VersionText(v));
    VersionRoundTrip(v);
  }

  lemma AcceptsRequestLine(request: Request, m: Method, path: seq<Byte>, v: Version)
    requires m != Invalid && v != Unknown && SPACE !in path
    ensures ProcessRequestLine(request, RequestLine(m, path, v))
            == (true, request.(verb := m, path := path, version := v))
  {
    MethodRoundTrip(m);
    AcceptsTarget(request.(verb := m), path, v);
    JoinAtSpace(MethodText(m), path + ([SPACE] + VersionText(v)));
  }

  lemma AcceptedTarget(request: Request, target: seq<Byte>) returns (path: seq<Byte>, v: Version)
    requires ProcessTarget(request, target).0
    ensures v != Unknown && SPACE !in path && target == path + ([SPACE] + VersionText(v))
  {
    var end := Find(target, SPACE);
    SplitAtSpace(target);
    path, v := target[..end], VersionOf(target[end + 1..]);
    VersionIsText(target[end + 1..]);
  }

  lemma RefusesOtherLines(request: Request, line: seq<Byte>) returns (m: Method, path: seq<Byte>, v: Version)
    requires ProcessRequestLine(request, line).0
    ensures m != Invalid && v != Unknown && SPACE !in path && line == RequestLine(m, path, v)
  {
    var space := Find(line, SPACE);
    SplitAtSpace(line);
    m := MethodOf(line[..space]);
    MethodIsText(line[..space]);
    path, v := AcceptedTarget(request.(verb := m), line[space + 1..]);
  }

  /** A request line is accepted exactly when it is a method, a path without spaces and a version. */
  lemma AcceptedLines(request: Request, line: seq<Byte>)
    ensures ProcessRequestLine(request, line).0 <==>
            exists m, path, v ::
              m != Invalid && v != Unknown && SPACE !in path && line == RequestLine(m, path, v)
  {
    if ProcessRequestLine(request, line).0 {
      var m, path, v := RefusesOtherLines(request, line);
    }
    forall m, path, v | m != Invalid && v != Unknown && SPACE !in path && line == RequestLine(m, path, v)
      ensures ProcessRequestLine(request, line).0
    {
      AcceptsRequestLine(request, m, path, v);
    }
  }

  /** No CR LF inside the line. */
  predicate OneLine(line: seq<Byte>) {
    forall j :: 0 <= j < |line| ==> !CrlfAt(line, j)
  }

  lemma LineEnds(line: seq<Byte>, rest: seq<Byte>)
    requires OneLine(line)
    ensures var s := line + (CRLF + rest);
            FirstCrlf(s) == Some(|line|) && s[..|line|] == line && s[|line| + 2..] == rest
  {
    var s := line + (CRLF + rest);
    forall j | 0 <= j < |line|
      ensures !CrlfAt(s, j)
    {
      assert !CrlfAt(line, j);
    }
    FirstCrlfIs(s, Some(|line|));
  }

  predicate HeaderLine(line: seq<Byte>) {
    OneLine(line) && COLON in line
  }

  /** A line without a colon, blank or not, ends the headers. */
  predicate EndLine(line: seq<Byte>) {
    OneLine(line) && COLON !in line
  }

  function HeaderBlock(headers: seq<seq<Byte>>, last: seq<Byte>): seq<Byte> {
    if headers == [] then last + (CRLF + []) else headers[0] + (CRLF + HeaderBlock(headers[1..], last))
  }

  lemma Regroup(line: seq<Byte>, end: seq<Byte>, block: seq<Byte>, rest: seq<Byte>)
    ensures (line + (end + block)) + rest == line + (end + (block + rest))
  {
  }

  lemma ParseFirstLine(ctx: Context, line: seq<Byte>, rest: seq<Byte>)
    requires Ready(ctx) && ctx.state != ExpectBody && OneLine(line)
    ensures var step := OnLine(ctx, line); var r := Parse(ctx, line + (CRLF + rest));
            && (step.Next? ==> r == Parse(step.ctx, rest))
            && (step.Complete? ==> r == Result(true, step.ctx, rest))
  {
    LineEnds(line, rest);
    ParseLine(ctx, line + (CRLF + rest), |line|);
  }

  lemma KeepsHeader(ctx: Context, line: seq<Byte>)
    requires ctx.state == ExpectHeaders && HeaderLine(line)
    ensures OnLine(ctx, line) == Next(ctx)
  {
    var i :| 0 <= i < |line| && line[i] == COLON;
    assert Find(line, COLON) <= i;
  }

  /** Header lines are passed over up to the first line without a colon, which ends the request. */
  lemma {:induction false} ParseHeaders(ctx: Context, headers: seq<seq<Byte>>, last: seq<Byte>, rest: seq<Byte>)
    requires ctx.state == ExpectHeaders && EndLine(last)
    requires forall i :: 0 <= i < |headers| ==> HeaderLine(headers[i])
    ensures Parse(ctx, HeaderBlock(headers, last) + rest) == Result(true, ctx.(state := GotAll), rest)
    decreases |headers|
  {
    if headers == [] {
      Regroup(last, CRLF, [], rest);
      assert [] + rest == rest;
      ParseFirstLine(ctx, last, rest);
    } else {
      var line, block := headers[0], HeaderBlock(headers[1..], last);
      Regroup(line, CRLF, block, rest);
      KeepsHeader(ctx, line);
      ParseFirstLine(ctx, line, block + rest);
      ParseHeaders(ctx, headers[1..], last, rest);
    }
  }

  /**
   A complete request, followed by anything and cut anywhere, is recognised: method, path and
   version come back and exactly the bytes behind the line that ends the headers are left over.
   */
  lemma RequestRoundTrip(m: Method, path: seq<Byte>, v: Version, headers: seq<seq<Byte>>,
                         last: seq<Byte>, rest: seq<Byte>, chunks: seq<seq<Byte>>)
    requires m != Invalid && v != Unknown && SPACE !in path
    requires OneLine(RequestLine(m, path, v)) && EndLine(last)
    requires forall i :: 0 <= i < |headers| ==> HeaderLine(headers[i])
    requires Flatten(chunks) == RequestLine(m, path, v) + (CRLF + (HeaderBlock(headers, last) + rest))
    ensures Feed(FRESH, [], chunks) == Result(true, Context(GotAll, Request(m, v, path, [])), rest)
  {
    ChunkedEqualsWhole(chunks);
    AcceptsRequestLine(EMPTY_REQUEST, m, path, v);
    ParseFirstLine(FRESH, RequestLine(m, path, v), HeaderBlock(headers, last) + rest);
    ParseHeaders(Context(ExpectHeaders, Request(m, v, path, [])), headers, last, rest);
  }

  // ---------- Calling again after a refusal ----------

  /** The line begins with a known method and a space. */
  ghost predicate NamesMethod(line: seq<Byte>) {
    exists m :: m != Invalid && MethodText(m) + [SPACE] <= line
  }

  lemma NamedMethodIsFound(line: seq<Byte>, m: Method)
    requires m != Invalid && MethodText(m) + [SPACE] <= line
    ensures Find(line, SPACE) == |MethodText(m)| && line[..|MethodText(m)|] == MethodText(m)
  {
    var n := |MethodText(m)|;
    MethodRoundTrip(m);
    assert line[..n] == MethodText(m) && line[n] == (MethodText(m) + [SPACE])[n];
    assert forall j :: 0 <= j < n ==> line[j] == MethodText(m)[j];
    FindAt(line, SPACE, n);
  }

  lemma OneByteMore(line: seq<Byte>, i: nat)
    requires i < |line|
    ensures line[..i] + [line[i]] <= line
  {
    assert line[..i] + [line[i]] == line[..i + 1];
  }

  lemma FoundMethodIsNamed(line: seq<Byte>)
    requires Find(line, SPACE) < |line| && MethodOf(line[..Find(line, SPACE)]) != Invalid
    ensures NamesMethod(line)
  {
    var i := Find(line, SPACE);
    MethodIsText(line[..i]);
    OneByteMore(line, i);
  }

  /** `setMethod` is reached with no method set again exactly if the refused line names none. */
  lemma RefusedVerb(request: Request, line: seq<Byte>)
    requires request.verb == Invalid && !ProcessRequestLine(request, line).0
    ensures ProcessRequestLine(request, line).1.verb == Invalid <==> !NamesMethod(line)
    ensures !NamesMethod(line) ==> ProcessRequestLine(request, line).1 == request
  {
    if NamesMethod(line) {
      var m :| m != Invalid && MethodText(m) + [SPACE] <= line;
      NamedMethodIsFound(line, m);
      MethodRoundTrip(m);
    } else if Find(line, SPACE) < |line| && MethodOf(line[..Find(line, SPACE)]) != Invalid {
      FoundMethodIsNamed(line);
    }
  }

  /** A line refused for its version has already set method and path; nothing else changes. */
  lemma RefusedForVersion(request: Request, m: Method, path: seq<Byte>, version: seq<Byte>)
    requires m != Invalid && SPACE !in path && VersionOf(version) == Unknown
    ensures ProcessRequestLine(request, MethodText(m) + ([SPACE] + (path + ([SPACE] + version)))) ==
            (false, request.(verb := m, path := path))
  {
    MethodRoundTrip(m);
    JoinAtSpace(MethodText(m), path + ([SPACE] + version));
    JoinAtSpace(path, version);
  }

  /** One without a second space has set the method alone. */
  lemma RefusedForPath(request: Request, m: Method, target: seq<Byte>)
    requires m != Invalid && SPACE !in target
    ensures ProcessRequestLine(request, MethodText(m) + ([SPACE] + target)) == (false, request.(verb := m))
  {
    MethodRoundTrip(m);
    JoinAtSpace(MethodText(m), target);
  }

  /** Behind the request line nothing is refused. */
  lemma {:induction false} HeadersAreNotRefused(ctx: Context, buf: seq<Byte>)
    requires Ready(ctx) && ctx.state != ExpectRequestLine
    ensures Parse(ctx, buf).ok
    decreases |buf|
  {
    var crlf := FirstCrlf(buf);
    if ctx.state == ExpectBody || crlf == None {
    } else {
      ParseLine(ctx, buf, crlf.value);
      var step := OnLine(ctx, buf[..crlf.value]);
      if step.Next? {
        HeadersAreNotRefused(step.ctx, buf[crlf.value + 2..]);
      }
    }
  }

  /**
   Nothing of a refused request line is consumed. A second call on it passes the assertion in
   `setMethod` if and only if the line names no method, and then it is refused in the same way.
   */
  lemma RefusedAgain(ctx: Context, buf: seq<Byte>)
    requires Ready(ctx) && ctx.state == ExpectRequestLine && !Parse(ctx, buf).ok
    ensures var r := Parse(ctx, buf);
            && FirstCrlf(buf).Some? && r.left == buf && r.ctx.state == ExpectRequestLine
            && (Ready(r.ctx) <==> !NamesMethod(buf[..FirstCrlf(buf).value]))
            && (Ready(r.ctx) ==> Parse(r.ctx, r.left) == r)
  {
    var i := FirstCrlf(buf).value;
    ParseLine(ctx, buf, i);
    var step := OnLine(ctx, buf[..i]);
    if step.Next? {
      HeadersAreNotRefused(step.ctx, buf[i + 2..]);
    }
    RefusedVerb(ctx.request, buf[..i]);
  }

  lemma MethodWithoutCr(m: Method)
    requires m != Invalid
    ensures OneLine(MethodText(m) + ([SPACE] + []))
  {
    assert 13 !in MethodText(m);
  }

  /** A request line that ends behind its method is refused, and a second call fails the assertion. */
  lemma MethodAloneIsRefused(m: Method)
    requires m != Invalid
    ensures var r := Parse(FRESH, (MethodText(m) + ([SPACE] + [])) + (CRLF + [])); !r.ok && !Ready(r.ctx)
  {
    var line := MethodText(m) + ([SPACE] + []);
    MethodWithoutCr(m);
    LineEnds(line, []);
    ParseLine(FRESH, line + (CRLF + []), |line|);
    RefusedForPath(EMPTY_REQUEST, m, []);
  }

}
