/**
 * HTTTP/1.0 messages: the printer and the reader of src/libhtttp/htttp.c.
 * Bytes are characters; a field that C holds as a string is the text before its NUL.
 */
module Htttp {
  import opened Decimal

  const VERSION := "HTTTP/1.0"
  const MAX_METHOD := 16
  const MAX_PATH := 256
  const MAX_HEADERS := 32
  const MAX_KEY := 64
  const MAX_VALUE := 256
  const UINT32_MAX := 0xFFFF_FFFF
  const NUL := '\0'

  datatype Status = Fine | Malformed | TooLong | BadLength | NoSpace

  datatype Header = Header(key: string, value: string)

  /** What a reader leaves behind: the header table and the body, or why it refused. */
  datatype Tail = Tail(headers: seq<Header>, body: string) | Refused(why: Status)

  datatype Request = Request(verb: string, path: string, headers: seq<Header>, body: string)

  datatype Response = Response(code: int, headers: seq<Header>, body: string)

  datatype Parsed<T> = Got(message: T) | Rejected(why: Status)

  // ---- strings -------------------------------------------------------------

  predicate IsIndex(s: string, c: char, i: nat)
  {
    i <= |s| && (i < |s| ==> s[i] == c) && forall j :: 0 <= j < i ==> s[j] != c
  }

  lemma {:induction false} IndexExists(s: string, c: char, from: nat)
    requires from <= |s| && forall j :: 0 <= j < from ==> s[j] != c
    ensures exists i: nat :: IsIndex(s, c, i)
    decreases |s| - from
  {
    if from < |s| && s[from] != c {
      IndexExists(s, c, from + 1);
    } else {
      assert IsIndex(s, c, from);
    }
  }

  /** Index of the first c, or |s|. */
  function IndexOf(s: string, c: char): (i: nat)
    ensures i <= |s| && (i < |s| ==> s[i] == c)
    ensures forall j :: 0 <= j < i ==> s[j] != c
  {
    IndexExists(s, c, 0);
    var i: nat :| IsIndex(s, c, i);
    i
  }

  lemma {:induction false} IndexIs(s: string, c: char, i: nat)
    requires i <= |s| && (i < |s| ==> s[i] == c) && (forall j :: 0 <= j < i ==> s[j] != c)
    ensures IndexOf(s, c) == i
  {
  }

  /** The C string a buffer holds. */
  function CString(s: string): string { s[..IndexOf(s, NUL)] }

  predicate BreakAt(s: string, i: int)
  {
    0 <= i < |s| - 1 && s[i] == '\r' && s[i + 1] == '\n'
  }

  predicate IsLineEnd(s: string, i: nat)
  {
    i <= |s| && (i < |s| ==> BreakAt(s, i)) && forall j :: 0 <= j < i ==> !BreakAt(s, j)
  }

  lemma {:induction false} LineEndExists(s: string, from: nat)
    requires from <= |s| && forall j :: 0 <= j < from ==> !BreakAt(s, j)
    ensures exists i: nat :: IsLineEnd(s, i)
    decreases |s| - from
  {
    if from < |s| && !BreakAt(s, from) {
      LineEndExists(s, from + 1);
    } else {
      assert IsLineEnd(s, from);
    }
  }

  /** Index of the first CRLF, or |s|. */
  function LineEnd(s: string): (i: nat)
    ensures i <= |s| && (i < |s| ==> BreakAt(s, i))
    ensures forall j :: 0 <= j < i ==> !BreakAt(s, j)
  {
    LineEndExists(s, 0);
    var i: nat :| IsLineEnd(s, i);
    i
  }

  lemma {:induction false} LineEndIs(s: string, i: nat)
    requires i <= |s| && (i < |s| ==> BreakAt(s, i)) && (forall j :: 0 <= j < i ==> !BreakAt(s, j))
    ensures LineEnd(s) == i
  {
  }

  function Lower(c: char): char
  {
    if 'A' <= c <= 'Z' then (c as int + 32) as char else c
  }

  /** ci_eq on two C strings. */
  predicate SameName(a: string, b: string)
  {
    |a| == |b| && forall i :: 0 <= i < |a| ==> Lower(a[i]) == Lower(b[i])
  }

  /** Names match but for the case of their letters. */
  lemma SameNameMeans(a: string, b: string)
    ensures SameName(a, b) <==> |a| == |b| && forall i :: 0 <= i < |a| ==> SameLetter(a[i], b[i])
  {
    if SameName(a, b) {
      forall i | 0 <= i < |a|
        ensures SameLetter(a[i], b[i])
      {
        assert Lower(a[i]) == Lower(b[i]);
      }
    }
  }

  /** Equal, or one letter in its two cases. */
  predicate SameLetter(a: char, b: char)
  {
    a == b || ('A' <= a <= 'Z' && b as int == a as int + 32) || ('A' <= b <= 'Z' && a as int == b as int + 32)
  }

  predicate Visible(s: string) { forall i :: 0 <= i < |s| ==> '!' <= s[i] <= '~' }

  predicate Printable(s: string) { forall i :: 0 <= i < |s| ==> ' ' <= s[i] <= '~' }

  lemma PrintableIsPlain(s: string)
    requires Printable(s)
    ensures CString(s) == s && forall i :: !BreakAt(s, i)
  {
    IndexIs(s, NUL, |s|);
  }

  // ---- the three bound-checked primitives ----------------------------------

  /** find_crlf. */
  method FindCrlf(buf: string, from: nat) returns (found: bool, at: nat)
    requires from <= |buf|
    ensures found <==> LineEnd(buf[from..]) < |buf| - from
    ensures found ==> at == from + LineEnd(buf[from..]) && at + 1 < |buf|
  {
    at := from;
    while at + 1 < |buf|
      invariant from <= at <= |buf|
      invariant forall j :: 0 <= j < at - from ==> !BreakAt(buf[from..], j)
    {
      if buf[at] == '\r' && buf[at + 1] == '\n' {
        LineEndIs(buf[from..], at - from);
        return true, at;
      }
      at := at + 1;
    }
    LineEndIs(buf[from..], |buf| - from);
    found := false;
  }

  /** find_crlf from the start: the end of line 1. */
  method FindLine1(buf: string) returns (found: bool, at: nat)
    ensures found <==> LineEnd(buf) < |buf|
    ensures found ==> at == LineEnd(buf) && at + 1 < |buf|
  {
    assert buf[0..] == buf;
    found, at := FindCrlf(buf, 0);
  }

  /** The scans for ':' and ' ' inside one line. */
  method FindChar(buf: string, from: nat, end: nat, c: char) returns (at: nat)
    requires from <= end <= |buf|
    ensures at == from + IndexOf(buf[from..end], c)
  {
    at := from;
    while at < end && buf[at] != c
      invariant from <= at <= end
      invariant forall j :: 0 <= j < at - from ==> buf[from..end][j] != c
    {
      at := at + 1;
    }
    IndexIs(buf[from..end], c, at - from);
  }

  /** copy_token: the field keeps the bytes and a terminator, or nothing is copied. */
  method CopyToken(cap: nat, src: string) returns (status: Status, field: string)
    ensures status == (if |src| >= cap then TooLong else Fine)
    ensures status == Fine ==> field == CString(src) && |field| < cap
  {
    if |src| >= cap {
      return TooLong, "";
    }
    return Fine, CString(src);
  }

  /** The texts parse_uint takes: digits only, 1 to 32 of them, within 32 bits. */
  predicate IsUint(s: string)
  {
    0 < |s| <= 32 && AllDigits(s) && Value(s) <= UINT32_MAX
  }

  lemma {:induction false} PrefixSmaller(s: string, i: nat)
    requires AllDigits(s) && i <= |s|
    ensures Value(s[..i]) <= Value(s)
  {
    if i < |s| {
      PrefixSmaller(s[..|s| - 1], i);
      assert s[..|s| - 1][..i] == s[..i];
    } else {
      assert s[..i] == s;
    }
  }

  /** parse_uint: the guard before the multiplication refuses exactly what does not fit. */
  method ParseUint(src: string) returns (status: Status, value: nat)
    ensures status == Fine <==> IsUint(src)
    ensures status == Fine ==> value == Value(src)
    ensures src == "" ==> status == Malformed
  {
    value := 0;
    if src == "" {
      return Malformed, 0;
    }
    if |src| > 32 {
      return TooLong, 0;
    }
    var i := 0;
    while i < |src|
      invariant 0 <= i <= |src|
      invariant AllDigits(src[..i]) && value == Value(src[..i]) <= UINT32_MAX
    {
      if src[i] < '0' || src[i] > '9' {
        return Malformed, 0;
      }
      var digit := DigitValue(src[i]);
      assert src[..i + 1][..i] == src[..i];
      if value > (UINT32_MAX - digit) / 10 {
        assert AllDigits(src) ==> Value(src) > UINT32_MAX by {
          if AllDigits(src) { PrefixSmaller(src, i + 1); }
        }
        return TooLong, 0;
      }
      value := value * 10 + digit;
      i := i + 1;
    }
    assert src[..i] == src;
    status := Fine;
  }

  // ---- header block and body -----------------------------------------------

  /** htttp_header_get: the value of the first header with that name. */
  function HeaderGet(headers: seq<Header>, key: string): (r: (bool, string))
    ensures r.0 <==> exists h :: h in headers && SameName(h.key, key)
  {
    if headers == [] then (false, "")
    else if SameName(headers[0].key, key) then (true, headers[0].value)
    else HeaderGet(headers[1..], key)
  }

  method FindHeader(headers: seq<Header>, key: string) returns (found: bool, value: string)
    ensures (found, value) == HeaderGet(headers, key)
  {
    value := "";
    var i := 0;
    while i < |headers|
      invariant 0 <= i <= |headers|
      invariant HeaderGet(headers, key) == HeaderGet(headers[i..], key)
    {
      if SameName(headers[i].key, key) {
        return true, headers[i].value;
      }
      assert headers[i..][1..] == headers[i + 1..];
      i := i + 1;
    }
    found := false;
  }

  /** The cross-check of the declared length against what arrived. */
  function BodyOf(rest: string, headers: seq<Header>): Tail
  {
    var (declared, text) := HeaderGet(headers, "Content-Length");
    if !declared then if rest == "" then Tail(headers, "") else Refused(BadLength)
    else if !IsUint(text) then Refused(Malformed)
    else if Value(text) != |rest| then Refused(BadLength)
    else Tail(headers, rest)
  }

  /** One header line without its CRLF: KEY ":" SP VALUE. */
  function ReadHeader(line: string, room: bool): Parsed<Header>
  {
    var c := IndexOf(line, ':');
    if c == 0 || c + 1 >= |line| || line[c + 1] != ' ' then Rejected(Malformed)
    else if !room || c >= MAX_KEY || |line| - c - 2 >= MAX_VALUE then Rejected(TooLong)
    else Got(Header(CString(line[..c]), CString(line[c + 2..])))
  }

  method ParseHeader(buf: string, off: nat, eol: nat, room: bool) returns (r: Parsed<Header>)
    requires off <= eol <= |buf|
    ensures r == ReadHeader(buf[off..eol], room)
  {
    ghost var line := buf[off..eol];
    var colon := FindChar(buf, off, eol, ':');
    if colon == off || colon >= eol || colon + 1 >= eol || buf[colon + 1] != ' ' {
      return Rejected(Malformed);
    }
    if !room {
      return Rejected(TooLong);
    }
    assert line[..colon - off] == buf[off..colon] && line[colon - off + 2..] == buf[colon + 2..eol];
    var status, key := CopyToken(MAX_KEY, buf[off..colon]);
    if status != Fine {
      return Rejected(status);
    }
    var value;
    status, value := CopyToken(MAX_VALUE, buf[colon + 2..eol]);
    return if status != Fine then Rejected(status) else Got(Header(key, value));
  }

  /** Reading everything after line 1, line by line. */
  function ReadTail(s: string, headers: seq<Header>): Tail
    decreases |s|
  {
    var e := LineEnd(s);
    if e == |s| then Refused(Malformed)
    else if e == 0 then BodyOf(s[2..], headers)
    else
      match ReadHeader(s[..e], |headers| < MAX_HEADERS)
      case Rejected(why) => Refused(why)
      case Got(h) => ReadTail(s[e + 2..], headers + [h])
  }

  lemma TailEnds(s: string, headers: seq<Header>)
    ensures LineEnd(s) == |s| ==> ReadTail(s, headers) == Refused(Malformed)
    ensures LineEnd(s) == 0 && s != "" ==> ReadTail(s, headers) == BodyOf(s[2..], headers)
  {
  }

  lemma TailLine(s: string, headers: seq<Header>, line: string, rest: string)
    requires 0 < LineEnd(s) < |s| && line == s[..LineEnd(s)] && rest == s[LineEnd(s) + 2..]
    ensures var h := ReadHeader(line, |headers| < MAX_HEADERS);
            && (h.Rejected? ==> ReadTail(s, headers) == Refused(h.why))
            && (h.Got? ==> ReadTail(s, headers) == ReadTail(rest, headers + [h.message]))
  {
  }

  /** A header line between `off` and `eol`, in the buffer. */
  lemma HeaderHere(buf: string, off: nat, eol: nat, headers: seq<Header>)
    requires off < eol < |buf| && eol == off + LineEnd(buf[off..])
    ensures eol + 2 <= |buf|
    ensures var h := ReadHeader(buf[off..eol], |headers| < MAX_HEADERS);
            && (h.Rejected? ==> ReadTail(buf[off..], headers) == Refused(h.why))
            && (h.Got? ==> ReadTail(buf[off..], headers) == ReadTail(buf[eol + 2..], headers + [h.message]))
  {
    var s := buf[off..];
    assert s[..eol - off] == buf[off..eol] && s[eol - off + 2..] == buf[eol + 2..];
    TailLine(s, headers, buf[off..eol], buf[eol + 2..]);
  }

  method ParseBody(buf: string, off: nat, headers: seq<Header>) returns (r: Tail)
    requires off <= |buf|
    ensures r == BodyOf(buf[off..], headers)
  {
    var found, text := FindHeader(headers, "Content-Length");
    if !found {
      return if off != |buf| then Refused(BadLength) else Tail(headers, "");
    }
    var status, declared := ParseUint(text);
    if status != Fine {
      return Refused(Malformed);
    }
    if declared != |buf| - off {
      return Refused(BadLength);
    }
    return Tail(headers, buf[off..]);
  }

  /** parse_tail. */
  method ParseTail(buf: string, start: nat) returns (r: Tail)
    requires start <= |buf|
    ensures r == ReadTail(buf[start..], [])
  {
    var off := start;
    var headers: seq<Header> := [];
    ghost var whole := ReadTail(buf[start..], []);
    while true
      invariant start <= off <= |buf|
      invariant whole == ReadTail(buf[off..], headers)
      decreases |buf| - off
    {
      TailEnds(buf[off..], headers);
      var found, eol := FindCrlf(buf, off);
      if !found {
        return Refused(Malformed);
      }
      if eol == off {
        assert buf[off..][2..] == buf[off + 2..];
        r := ParseBody(buf, off + 2, headers);
        return;
      }
      HeaderHere(buf, off, eol, headers);
      var h := ParseHeader(buf, off, eol, |headers| < MAX_HEADERS);
      if h.Rejected? {
        return Refused(h.why);
      }
      headers := headers + [h.message];
      off := eol + 2;
    }
  }

  // ---- requests --------------------------------------------------------------

  /** METHOD SP PATH SP VERSION, split at the first two spaces. */
  function ReadRequestLine(line: string): Parsed<(string, string)>
  {
    var sp1 := IndexOf(line, ' ');
    if sp1 == 0 || sp1 >= |line| then Rejected(Malformed)
    else if sp1 >= MAX_METHOD then Rejected(TooLong)
    else
      var rest := line[sp1 + 1..];
      var sp2 := IndexOf(rest, ' ');
      if sp2 == 0 || sp2 >= |rest| then Rejected(Malformed)
      else if sp2 >= MAX_PATH then Rejected(TooLong)
      else if rest[sp2 + 1..] != VERSION then Rejected(Malformed)
      else Got((CString(line[..sp1]), CString(rest[..sp2])))
  }

  method ParseRequestLine(buf: string, eol: nat) returns (r: Parsed<(string, string)>)
    requires eol <= |buf|
    ensures r == ReadRequestLine(buf[..eol])
  {
    ghost var line := buf[..eol];
    assert buf[0..eol] == line;
    var sp1 := FindChar(buf, 0, eol, ' ');
    if sp1 == 0 || sp1 >= eol {
      return Rejected(Malformed);
    }
    assert line[..sp1] == buf[..sp1];
    var status, verb := CopyToken(MAX_METHOD, buf[..sp1]);
    if status != Fine {
      return Rejected(TooLong);
    }
    ghost var rest := line[sp1 + 1..];
    assert buf[sp1 + 1..eol] == rest;
    var sp2 := FindChar(buf, sp1 + 1, eol, ' ');
    if sp2 == sp1 + 1 || sp2 >= eol {
      return Rejected(Malformed);
    }
    assert rest[..sp2 - sp1 - 1] == buf[sp1 + 1..sp2] && rest[sp2 - sp1..] == buf[sp2 + 1..eol];
    var path;
    status, path := CopyToken(MAX_PATH, buf[sp1 + 1..sp2]);
    if status != Fine {
      return Rejected(TooLong);
    }
    return if buf[sp2 + 1..eol] != VERSION then Rejected(Malformed) else Got((verb, path));
  }

  function WithTail(verb: string, path: string, t: Tail): Parsed<Request>
  {
    match t
    case Tail(headers, body) => Got(Request(verb, path, headers, body))
    case Refused(why) => Rejected(why)
  }

  function ReadRequest(s: string): Parsed<Request>
  {
    var e := LineEnd(s);
    if e == |s| then Rejected(Malformed)
    else
      match ReadRequestLine(s[..e])
      case Rejected(why) => Rejected(why)
      case Got(line) => WithTail(line.0, line.1, ReadTail(s[e + 2..], []))
  }

  /** htttp_parse_request. */
  method ParseRequest(buf: string) returns (r: Parsed<Request>)
    ensures r == ReadRequest(buf)
  {
    var found, eol := FindLine1(buf);
    if !found {
      return Rejected(Malformed);
    }
    var line := ParseRequestLine(buf, eol);
    if line.Rejected? {
      return Rejected(line.why);
    }
    var t := ParseTail(buf, eol + 2);
    return WithTail(line.message.0, line.message.1, t);
  }

  // ---- printing ----------------------------------------------------------------

  predicate Dropped(h: Header, skipDate: bool)
  {
    SameName(h.key, "Content-Length") || (skipDate && SameName(h.key, "Date"))
  }

  /** The caller's headers that go out. */
  function Kept(headers: seq<Header>, skipDate: bool): (kept: seq<Header>)
    ensures forall h :: h in kept ==> h in headers && !Dropped(h, skipDate)
    ensures |kept| <= |headers|
  {
    if headers == [] then []
    else (if Dropped(headers[0], skipDate) then [] else [headers[0]]) + Kept(headers[1..], skipDate)
  }

  /** A caller's header goes out unless it is the length, or, in a response, the date. */
  lemma {:induction false} KeptMeans(headers: seq<Header>, skipDate: bool, h: Header)
    ensures h in Kept(headers, skipDate) <==>
            h in headers && !SameName(h.key, "Content-Length") && !(skipDate && SameName(h.key, "Date"))
  {
    if headers != [] {
      KeptMeans(headers[1..], skipDate, h);
      assert h in headers <==> h == headers[0] || h in headers[1..];
    }
  }

  /** The generated length, only when there is a body. */
  function LengthHeader(body: string): seq<Header>
  {
    if body == "" then [] else [LengthOf(body)]
  }

  function LengthOf(body: string): Header { Header("Content-Length", Text(|body|)) }

  function Line(h: Header): string { h.key + ": " + h.value + "\r\n" }

  function Lines(headers: seq<Header>): string
  {
    if headers == [] then "" else Line(headers[0]) + Lines(headers[1..])
  }

  predicate Legal(h: Header)
  {
    h.key != "" && Visible(h.key) && Printable(h.value)
  }

  predicate AllLegal(headers: seq<Header>)
  {
    forall i :: 0 <= i < |headers| ==> Legal(headers[i])
  }

  /** What the struct's arrays can hold: strings shorter than their buffers. */
  predicate Held(h: Header)
  {
    |h.key| < MAX_KEY && |h.value| < MAX_VALUE
  }

  predicate AllHeld(headers: seq<Header>)
  {
    forall i :: 0 <= i < |headers| ==> Held(headers[i])
  }

  function RequestLine(req: Request): string
  {
    req.verb + " " + req.path + " " + VERSION + "\r\n"
  }

  /** All headers of the wire form of a request. */
  function Sent(req: Request): seq<Header>
  {
    Kept(req.headers, false) + LengthHeader(req.body)
  }

  /** Everything after the headers that come first: the kept ones, the length, a blank line, the body. */
  function TailText(headers: seq<Header>, skipDate: bool, body: string): string
  {
    Lines(Kept(headers, skipDate)) + BodyText(body)
  }

  function BodyText(body: string): string { Lines(LengthHeader(body)) + ("\r\n" + body) }

  function RequestText(req: Request): string
  {
    RequestLine(req) + TailText(req.headers, false, req.body)
  }

  predicate GoodLine(req: Request)
  {
    req.verb != "" && req.path != "" && Visible(req.verb) && Visible(req.path)
  }

  /** What the serializer says of a request that fits its buffer. */
  function Ruling(req: Request): Status
  {
    if !GoodLine(req) then Malformed
    else if |req.headers| > MAX_HEADERS then TooLong
    else if !AllLegal(Kept(req.headers, false)) then Malformed
    else Fine
  }

  /** The struct is one the C type can hold. */
  predicate InBounds(req: Request)
  {
    |req.verb| < MAX_METHOD && |req.path| < MAX_PATH && AllHeld(req.headers) && |req.body| <= UINT32_MAX
  }

  // ---- responses ---------------------------------------------------------------

  /** htttp_reason; "" where the source returns NULL. */
  function Reason(code: int): string
  {
    match code
    case 200 => "OK"
    case 201 => "Created"
    case 400 => "Bad Request"
    case 401 => "Unauthorized"
    case 403 => "Forbidden"
    case 404 => "Not Found"
    case 409 => "Conflict"
    case 413 => "Payload Too Large"
    case 429 => "Too Many Requests"
    case 500 => "Internal Server Error"
    case 501 => "Not Implemented"
    case _ => ""
  }

  /** The codes that can be sent, each under a reason of its own. */
  lemma ReasonsDiffer(a: int, b: int)
    ensures Reason(a) != "" <==> a in {200, 201, 400, 401, 403, 404, 409, 413, 429, 500, 501}
    ensures Reason(a) == Reason(b) != "" ==> a == b
  {
    if a != b && Reason(a) != "" && |Reason(a)| == |Reason(b)| {
      assert Reason(a)[0] != Reason(b)[0];
    }
  }

  function AnswerWithTail(code: int, t: Tail): Parsed<Response>
  {
    match t
    case Tail(headers, body) => Got(Response(code, headers, body))
    case Refused(why) => Rejected(why)
  }

  /** A status code's digits. */
  predicate IsCode(digits: string)
  {
    IsUint(digits) && 100 <= Value(digits) <= 599
  }

  /** VERSION SP STATUS SP REASON, the reason unread. */
  function ReadStatus(line: string): Parsed<nat>
  {
    if |line| <= |VERSION| || line[..|VERSION|] != VERSION || line[|VERSION|] != ' ' then Rejected(Malformed)
    else
      var rest := line[|VERSION| + 1..];
      var width := IndexOf(rest, ' ');
      if width == |rest| || !IsCode(rest[..width]) then Rejected(Malformed)
      else Got(Value(rest[..width]))
  }

  function ReadResponse(s: string): Parsed<Response>
  {
    var e := LineEnd(s);
    if e == |s| then Rejected(Malformed)
    else
      match ReadStatus(s[..e])
      case Rejected(why) => Rejected(why)
      case Got(code) => AnswerWithTail(code, ReadTail(s[e + 2..], []))
  }

  method ParseStatus(buf: string, eol: nat) returns (r: Parsed<nat>)
    requires eol <= |buf|
    ensures r == ReadStatus(buf[..eol])
  {
    if eol <= |VERSION| || buf[..|VERSION|] != VERSION || buf[|VERSION|] != ' ' {
      return Rejected(Malformed);
    }
    var from := |VERSION| + 1;
    var sp1 := FindChar(buf, from, eol, ' ');
    assert buf[..eol][from..] == buf[from..eol] && buf[from..eol][..sp1 - from] == buf[from..sp1];
    if sp1 == from || sp1 >= eol {
      return Rejected(Malformed);
    }
    var status, code := ParseUint(buf[from..sp1]);
    return if status != Fine || code < 100 || code > 599 then Rejected(Malformed) else Got(code);
  }

  /** htttp_parse_response. */
  method ParseResponse(buf: string) returns (r: Parsed<Response>)
    ensures r == ReadResponse(buf)
  {
    var found, eol := FindLine1(buf);
    if !found {
      return Rejected(Malformed);
    }
    var code := ParseStatus(buf, eol);
    if code.Rejected? {
      return Rejected(code.why);
    }
    var t := ParseTail(buf, eol + 2);
    return AnswerWithTail(code.message, t);
  }

  function StatusLine(code: int): string
  {
    VERSION + " " + IntText(code) + " " + Reason(code) + "\r\n"
  }

  function Dated(date: string): Header { Header("Date", date) }

  /** All headers of the wire form of a response: the generated date first, the length last. */
  function Answered(res: Response, date: string): seq<Header>
  {
    [Dated(date)] + Kept(res.headers, true) + LengthHeader(res.body)
  }

  function ResponseText(res: Response, date: string): string
  {
    StatusLine(res.code) + Line(Dated(date)) + TailText(res.headers, true, res.body)
  }

  function ResponseRuling(res: Response): Status
  {
    if Reason(res.code) == "" then Malformed
    else if |res.headers| > MAX_HEADERS then TooLong
    else if !AllLegal(Kept(res.headers, true)) then Malformed
    else Fine
  }
}
