/**
 * The HTTTP/1.0 grammar, and the theorem that the readers of htttp.c take exactly the texts of it:
 * a first line, header lines, a blank line, and a body of the declared length with nothing behind it.
 */
module HtttpGrammar {
  import opened Decimal
  import opened Htttp

  predicate Unbroken(line: string) { forall i :: 0 <= i < |line| ==> !BreakAt(line, i) }

  lemma FirstLineIs(line: string, rest: string)
    requires Unbroken(line)
    ensures var s := line + "\r\n" + rest;
            LineEnd(s) == |line| && s[..|line|] == line && s[|line| + 2..] == rest
  {
    var s := line + "\r\n" + rest;
    forall j | 0 <= j < |line|
      ensures !BreakAt(s, j)
    {
      assert !BreakAt(line, j);
    }
    LineEndIs(s, |line|);
  }

  lemma CutAtLine(s: string) returns (line: string, rest: string)
    requires LineEnd(s) < |s|
    ensures line == s[..LineEnd(s)] && rest == s[LineEnd(s) + 2..] && s == line + "\r\n" + rest && Unbroken(line)
  {
    line, rest := s[..LineEnd(s)], s[LineEnd(s) + 2..];
    forall i
      ensures !BreakAt(line, i)
    {
      assert 0 <= i < |line| ==> !BreakAt(s, i);
    }
  }

  // ---- header lines

  /** KEY ":" SP VALUE, each short enough for its field. */
  predicate IsHeaderLine(line: string, key: string, value: string)
  {
    && line == key + ": " + value
    && key != "" && ':' !in key && |key| < 64 && |value| < 256
  }

  ghost predicate HeaderText(line: string, h: Header)
  {
    exists key, value :: IsHeaderLine(line, key, value) && h == Header(CString(key), CString(value))
  }

  /** A header line is read, if there is room for it, exactly when it is one. */
  lemma HeaderExactly(line: string, h: Header)
    ensures ReadHeader(line, true) == Got(h) <==> HeaderText(line, h)
  {
    if ReadHeader(line, true) == Got(h) {
      var c := IndexOf(line, ':');
      assert line == line[..c] + ": " + line[c + 2..];
      assert IsHeaderLine(line, line[..c], line[c + 2..]);
    }
    if key, value :| IsHeaderLine(line, key, value) && h == Header(CString(key), CString(value)) {
      IndexIs(line, ':', |key|);
      assert line[..|key|] == key && line[|key| + 2..] == value;
    }
  }

  predicate StartsWith(block: string, line: string, rest: string) { block == line + "\r\n" + rest && Unbroken(line) }

  /** The text of a header block, line by line. */
  ghost predicate IsBlock(block: string, headers: seq<Header>)
    decreases |headers|
  {
    if headers == [] then block == ""
    else exists line, rest :: StartsWith(block, line, rest) && HeaderText(line, headers[0]) && IsBlock(rest, headers[1..])
  }

  // ---- the body

  /** The first Content-Length among the headers says `n`, or there is none and `n` is 0. */
  ghost predicate DeclaresLength(headers: seq<Header>, n: nat)
  {
    if exists i :: FirstNamed(headers, i) then
      exists i :: FirstNamed(headers, i) && IsUint(headers[i].value) && Value(headers[i].value) == n
    else n == 0
  }

  ghost predicate FirstNamed(headers: seq<Header>, i: int)
  {
    && 0 <= i < |headers| && SameName(headers[i].key, "Content-Length")
    && forall j :: 0 <= j < i ==> !SameName(headers[j].key, "Content-Length")
  }

  lemma {:induction false} FirstFound(headers: seq<Header>, key: string) returns (i: nat)
    ensures HeaderGet(headers, key).0 ==>
              && i < |headers| && SameName(headers[i].key, key) && HeaderGet(headers, key).1 == headers[i].value
              && forall j :: 0 <= j < i ==> !SameName(headers[j].key, key)
    ensures !HeaderGet(headers, key).0 ==> forall j :: 0 <= j < |headers| ==> !SameName(headers[j].key, key)
  {
    i := 0;
    if headers != [] && !SameName(headers[0].key, key) {
      var k := FirstFound(headers[1..], key);
      i := k + 1;
      assert forall j :: 1 <= j < |headers| ==> headers[j] == headers[1..][j - 1];
    }
  }

  /** The bytes behind the blank line are the body exactly when they are as many as declared. */
  lemma BodyExactly(rest: string, headers: seq<Header>)
    ensures BodyOf(rest, headers) == Tail(headers, rest) <==> DeclaresLength(headers, |rest|)
    ensures BodyOf(rest, headers).Tail? ==> BodyOf(rest, headers) == Tail(headers, rest)
  {
    var i := FirstFound(headers, "Content-Length");
    if HeaderGet(headers, "Content-Length").0 {
      assert FirstNamed(headers, i);
      forall k | FirstNamed(headers, k)
        ensures k == i
      {
      }
    }
  }

  /** Header lines, a blank line, and the declared body up to the end. */
  ghost predicate IsTail(s: string, headers: seq<Header>, body: string)
  {
    && |headers| <= 32 && DeclaresLength(headers, |body|)
    && exists block :: IsBlock(block, headers) && s == block + "\r\n" + body
  }

  /** What was read is a block behind the headers read before, and the declared body behind it. */
  ghost predicate Parts(s: string, before: seq<Header>, t: Tail, block: string, headers: seq<Header>)
  {
    && t.Tail? && t.headers == before + headers && s == block + "\r\n" + t.body && IsBlock(block, headers)
    && |t.headers| <= MAX_HEADERS && DeclaresLength(t.headers, |t.body|)
  }

  lemma PartsLine(line: string, rest: string, h: Header, before: seq<Header>, t: Tail,
                  block: string, headers: seq<Header>)
    requires Unbroken(line) && HeaderText(line, h) && Parts(rest, before + [h], t, block, headers)
    ensures Parts(line + "\r\n" + rest, before, t, line + "\r\n" + block, [h] + headers)
  {
    assert StartsWith(line + "\r\n" + block, line, block) && ([h] + headers)[1..] == headers;
    assert before + [h] + headers == before + ([h] + headers);
    assert line + "\r\n" + rest == line + "\r\n" + block + "\r\n" + t.body;
  }

  lemma PartsBlank(rest: string, before: seq<Header>)
    requires BodyOf(rest, before).Tail? && |before| <= MAX_HEADERS
    ensures Parts("" + "\r\n" + rest, before, BodyOf(rest, before), "", [])
  {
    BodyExactly(rest, before);
    assert before + [] == before;
  }

  lemma {:induction false} TailSound(s: string, before: seq<Header>) returns (block: string, headers: seq<Header>)
    requires ReadTail(s, before).Tail? && |before| <= MAX_HEADERS
    ensures Parts(s, before, ReadTail(s, before), block, headers)
    decreases |s|
  {
    TailEnds(s, before);
    var line, rest := CutAtLine(s);
    if line == "" {
      block, headers := "", [];
      PartsBlank(rest, before);
    } else {
      TailLine(s, before, line, rest);
      var h := ReadHeader(line, |before| < MAX_HEADERS).message;
      HeaderExactly(line, h);
      block, headers := TailSound(rest, before + [h]);
      PartsLine(line, rest, h, before, ReadTail(s, before), block, headers);
      block, headers := line + "\r\n" + block, [h] + headers;
    }
  }

  lemma {:induction false} TailComplete(s: string, block: string, headers: seq<Header>, before: seq<Header>,
                                        all: seq<Header>, body: string)
    requires IsBlock(block, headers) && all == before + headers && |all| <= MAX_HEADERS
    requires BodyOf(body, all) == Tail(all, body) && s == block + "\r\n" + body
    ensures ReadTail(s, before) == Tail(all, body)
    decreases |headers|
  {
    if headers == [] {
      assert all == before;
      BlankReads(body, before);
    } else {
      var line, rest :| StartsWith(block, line, rest) && HeaderText(line, headers[0]) && IsBlock(rest, headers[1..]);
      Regrouped(line, rest, body);
      HeaderReads(s, line, rest + "\r\n" + body, headers[0], before);
      Moved(before, headers);
      TailComplete(rest + "\r\n" + body, rest, headers[1..], before + [headers[0]], all, body);
    }
  }

  lemma Moved(before: seq<Header>, headers: seq<Header>)
    requires headers != []
    ensures before + headers == before + [headers[0]] + headers[1..]
  {
  }

  lemma Regrouped(line: string, rest: string, body: string)
    ensures line + "\r\n" + rest + "\r\n" + body == line + "\r\n" + (rest + "\r\n" + body)
  {
  }

  lemma BlankReads(body: string, headers: seq<Header>)
    requires BodyOf(body, headers) == Tail(headers, body)
    ensures ReadTail("" + "\r\n" + body, headers) == Tail(headers, body)
  {
    FirstLineIs("", body);
    TailEnds("" + "\r\n" + body, headers);
  }

  lemma HeaderReads(s: string, line: string, after: string, h: Header, before: seq<Header>)
    requires s == line + "\r\n" + after
    requires Unbroken(line) && HeaderText(line, h) && |before| < MAX_HEADERS
    ensures ReadTail(s, before) == ReadTail(after, before + [h])
  {
    FirstLineIs(line, after);
    HeaderExactly(line, h);
    NotBlank(line, h);
    TailLine(s, before, line, after);
  }

  lemma NotBlank(line: string, h: Header)
    requires HeaderText(line, h)
    ensures line != ""
  {
  }

  /** Everything after the first line is read exactly when it is of the grammar. */
  lemma TailExactly(s: string, headers: seq<Header>, body: string)
    ensures ReadTail(s, []) == Tail(headers, body) <==> IsTail(s, headers, body)
  {
    if ReadTail(s, []) == Tail(headers, body) {
      var block, hs := TailSound(s, []);
      assert [] + hs == hs;
    }
    if IsTail(s, headers, body) {
      var block :| IsBlock(block, headers) && s == block + "\r\n" + body;
      assert [] + headers == headers;
      BodyExactly(body, headers);
      TailComplete(s, block, headers, [], headers, body);
    }
  }

  // ---- requests

  predicate IsWord(s: string, cap: nat) { s != "" && ' ' !in s && |s| < cap }

  predicate IsRequestLine(line: string, verb: string, path: string)
  {
    line == verb + " " + path + " HTTTP/1.0" && IsWord(verb, 16) && IsWord(path, 256)
  }

  lemma RequestLineExactly(line: string, r: (string, string))
    ensures ReadRequestLine(line) == Got(r) <==>
            exists verb, path :: IsRequestLine(line, verb, path) && r == (CString(verb), CString(path))
  {
    if ReadRequestLine(line) == Got(r) {
      var sp1 := IndexOf(line, ' ');
      var rest := line[sp1 + 1..];
      var sp2 := IndexOf(rest, ' ');
      assert line == line[..sp1] + " " + rest && rest == rest[..sp2] + " " + rest[sp2 + 1..];
      ThreeWords(line[..sp1], rest[..sp2], rest[sp2 + 1..]);
      assert IsRequestLine(line, line[..sp1], rest[..sp2]);
    }
    if verb, path :| IsRequestLine(line, verb, path) && r == (CString(verb), CString(path)) {
      RequestLineReads(line, verb, path);
    }
  }

  lemma ThreeWords(verb: string, path: string, version: string)
    requires version == VERSION
    ensures verb + " " + (path + " " + version) == verb + " " + path + " HTTTP/1.0"
  {
    assert " " + VERSION == " HTTTP/1.0";
    assert verb + " " + (path + " " + version) == verb + " " + path + (" " + VERSION);
  }

  lemma RequestLineReads(line: string, verb: string, path: string)
    requires IsRequestLine(line, verb, path)
    ensures ReadRequestLine(line) == Got((CString(verb), CString(path)))
  {
    var rest := path + " HTTTP/1.0";
    assert line == verb + " " + rest;
    IndexIs(line, ' ', |verb|);
    assert line[..|verb|] == verb && line[|verb| + 1..] == rest;
    IndexIs(rest, ' ', |path|);
    assert rest[..|path|] == path && rest[|path| + 1..] == VERSION;
  }

  ghost predicate RequestStart(s: string, req: Request, verb: string, path: string, tail: string)
  {
    && IsRequestLine(verb + " " + path + " HTTTP/1.0", verb, path) && Unbroken(verb + " " + path + " HTTTP/1.0")
    && s == verb + " " + path + " HTTTP/1.0" + "\r\n" + tail
    && req.verb == CString(verb) && req.path == CString(path)
  }

  /** The text is a request of the grammar. */
  ghost predicate IsRequest(s: string, req: Request)
  {
    exists verb, path, tail :: RequestStart(s, req, verb, path, tail) && IsTail(tail, req.headers, req.body)
  }

  /** htttp_parse_request takes a text for a request exactly when it is one. */
  lemma RequestExactly(s: string, req: Request)
    ensures ReadRequest(s) == Got(req) <==> IsRequest(s, req)
  {
    if ReadRequest(s) == Got(req) {
      RequestSound(s, req);
    }
    if IsRequest(s, req) {
      var verb, path, tail :| RequestStart(s, req, verb, path, tail) && IsTail(tail, req.headers, req.body);
      var line := verb + " " + path + " HTTTP/1.0";
      FirstLineIs(line, tail);
      RequestLineReads(line, verb, path);
      TailExactly(tail, req.headers, req.body);
    }
  }

  lemma RequestSound(s: string, req: Request)
    requires ReadRequest(s) == Got(req)
    ensures IsRequest(s, req)
  {
    var line, tail := CutAtLine(s);
    RequestLineExactly(line, (req.verb, req.path));
    var verb, path :| IsRequestLine(line, verb, path) && (req.verb, req.path) == (CString(verb), CString(path));
    TailExactly(tail, req.headers, req.body);
    assert RequestStart(s, req, verb, path, tail);
  }

  // ---- responses

  /** VERSION SP CODE SP and anything: a code of 100 to 599. */
  predicate IsStatusLine(line: string, digits: string, reason: string)
  {
    line == "HTTTP/1.0 " + digits + " " + reason && IsUint(digits) && 100 <= Value(digits) <= 599
  }

  lemma StatusReads(line: string, digits: string, reason: string)
    requires IsStatusLine(line, digits, reason)
    ensures ReadStatus(line) == Got(Value(digits))
  {
    var rest := digits + " " + reason;
    assert line == VERSION + " " + rest;
    assert line[|VERSION| + 1..] == rest && line[..|VERSION|] == VERSION;
    IndexIs(rest, ' ', |digits|);
    assert rest[..|digits|] == digits;
  }

  lemma StatusSound(line: string) returns (digits: string, reason: string)
    requires ReadStatus(line).Got?
    ensures IsStatusLine(line, digits, reason) && Value(digits) == ReadStatus(line).message
  {
    var rest := line[|VERSION| + 1..];
    var width := IndexOf(rest, ' ');
    digits, reason := rest[..width], rest[width + 1..];
    assert line == VERSION + " " + rest && rest == digits + " " + reason;
  }

  ghost predicate ResponseStart(s: string, code: int, digits: string, reason: string, tail: string)
  {
    && IsStatusLine("HTTTP/1.0 " + digits + " " + reason, digits, reason) && Value(digits) == code
    && Unbroken("HTTTP/1.0 " + digits + " " + reason)
    && s == "HTTTP/1.0 " + digits + " " + reason + "\r\n" + tail
  }

  /** The text is a response of the grammar. */
  ghost predicate IsResponse(s: string, res: Response)
  {
    exists digits, reason, tail :: ResponseStart(s, res.code, digits, reason, tail) && IsTail(tail, res.headers, res.body)
  }

  /** htttp_parse_response takes a text for a response exactly when it is one. */
  lemma ResponseExactly(s: string, res: Response)
    ensures ReadResponse(s) == Got(res) <==> IsResponse(s, res)
  {
    if ReadResponse(s) == Got(res) {
      ResponseSound(s, res);
    }
    if IsResponse(s, res) {
      var digits, reason, tail :|
        ResponseStart(s, res.code, digits, reason, tail) && IsTail(tail, res.headers, res.body);
      var line := "HTTTP/1.0 " + digits + " " + reason;
      FirstLineIs(line, tail);
      StatusReads(line, digits, reason);
      TailExactly(tail, res.headers, res.body);
    }
  }

  lemma ResponseSound(s: string, res: Response)
    requires ReadResponse(s) == Got(res)
    ensures IsResponse(s, res)
  {
    var line, tail := CutAtLine(s);
    var digits, reason := StatusSound(line);
    TailExactly(tail, res.headers, res.body);
    assert ResponseStart(s, res.code, digits, reason, tail);
  }
}
