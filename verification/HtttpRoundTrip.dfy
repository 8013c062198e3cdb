/** What a peer reads from what the serializers of src/libhtttp/htttp.c wrote. */
module HtttpRoundTrip {
  import opened Decimal
  import opened Htttp

  predicate ColonFree(s: string) { forall i :: 0 <= i < |s| ==> s[i] != ':' }

  predicate AllColonFree(headers: seq<Header>)
  {
    forall i :: 0 <= i < |headers| ==> ColonFree(headers[i].key)
  }

  /** Where a printed line ends. */
  lemma LineEnds(text: string, rest: string)
    requires Printable(text)
    ensures LineEnd(text + "\r\n" + rest) == |text|
    ensures (text + "\r\n" + rest)[..|text|] == text
    ensures (text + "\r\n" + rest)[|text| + 2..] == rest
  {
    var s := text + "\r\n" + rest;
    assert BreakAt(s, |text|);
    assert forall j :: 0 <= j < |text| ==> s[j] == text[j];
    LineEndIs(s, |text|);
  }

  function Field(h: Header): string { h.key + ": " + h.value }

  lemma FieldPrintable(h: Header)
    requires Legal(h)
    ensures Printable(Field(h))
  {
  }

  /** A printed header is read back exactly when its key has no colon and there is room. */
  lemma FieldReads(h: Header, room: bool)
    requires Legal(h) && Held(h)
    ensures ColonFree(h.key) && room ==> ReadHeader(Field(h), room) == Got(h)
    ensures ColonFree(h.key) && !room ==> ReadHeader(Field(h), room) == Rejected(TooLong)
    ensures !ColonFree(h.key) ==> ReadHeader(Field(h), room) == Rejected(Malformed)
  {
    var line := Field(h);
    if ColonFree(h.key) {
      IndexIs(line, ':', |h.key|);
      PrintableIsPlain(h.key);
      PrintableIsPlain(h.value);
      assert line[..|h.key|] == h.key && line[|h.key| + 2..] == h.value;
    } else {
      ColonInside(h);
    }
  }

  lemma ColonInside(h: Header)
    requires Legal(h) && !ColonFree(h.key)
    ensures ReadHeader(Field(h), true) == Rejected(Malformed) && ReadHeader(Field(h), false) == Rejected(Malformed)
  {
    var line := Field(h);
    var c := IndexOf(line, ':');
    var k :| 0 <= k < |h.key| && h.key[k] == ':';
    assert line[k] == ':';
    assert c <= k;
    assert line[c + 1] == if c + 1 < |h.key| then h.key[c + 1] else ':';
  }

  lemma LineSplit(h: Header, rest: string)
    ensures Line(h) + rest == Field(h) + "\r\n" + rest
  {
  }

  lemma LineReads(h: Header, rest: string, seen: seq<Header>)
    requires Legal(h) && Held(h)
    ensures ColonFree(h.key) && |seen| < MAX_HEADERS ==> ReadTail(Line(h) + rest, seen) == ReadTail(rest, seen + [h])
    ensures !(ColonFree(h.key) && |seen| < MAX_HEADERS) ==> ReadTail(Line(h) + rest, seen).Refused?
  {
    FieldPrintable(h);
    LineSplit(h, rest);
    LineEnds(Field(h), rest);
    FieldReads(h, |seen| < MAX_HEADERS);
  }

  /** A header block is read back whole, or refused. */
  lemma {:induction false} LinesRead(headers: seq<Header>, rest: string, seen: seq<Header>)
    requires AllLegal(headers) && AllHeld(headers) && |seen| <= MAX_HEADERS
    ensures AllColonFree(headers) && |seen| + |headers| <= MAX_HEADERS
        ==> ReadTail(Lines(headers) + rest, seen) == ReadTail(rest, seen + headers)
    ensures !(AllColonFree(headers) && |seen| + |headers| <= MAX_HEADERS)
        ==> ReadTail(Lines(headers) + rest, seen).Refused?
    decreases |headers|
  {
    if headers == [] {
      assert Lines(headers) + rest == rest && seen + headers == seen;
    } else {
      var h, more := headers[0], headers[1..];
      assert Lines(headers) + rest == Line(h) + (Lines(more) + rest);
      LineReads(h, Lines(more) + rest, seen);
      if ColonFree(h.key) && |seen| < MAX_HEADERS {
        LinesRead(more, rest, seen + [h]);
        assert seen + [h] + more == seen + headers;
        AllSplit(headers);
      }
    }
  }

  lemma AllSplit(headers: seq<Header>)
    requires headers != []
    ensures AllColonFree(headers) <==> ColonFree(headers[0].key) && AllColonFree(headers[1..])
  {
    if AllColonFree(headers[1..]) {
      assert forall i :: 0 < i < |headers| ==> headers[i] == headers[1..][i - 1];
    }
  }

  lemma BlankReads(body: string, seen: seq<Header>)
    ensures ReadTail("\r\n" + body, seen) == BodyOf(body, seen)
  {
    var s := "\r\n" + body;
    assert BreakAt(s, 0);
    LineEndIs(s, 0);
    assert s[2..] == body;
  }

  // ---- the generated length ------------------------------------------------

  lemma {:induction false} LookupSkips(headers: seq<Header>, more: seq<Header>, key: string)
    requires forall i :: 0 <= i < |headers| ==> !SameName(headers[i].key, key)
    ensures HeaderGet(headers + more, key) == HeaderGet(more, key)
  {
    if headers == [] {
      assert headers + more == more;
    } else {
      assert (headers + more)[1..] == headers[1..] + more;
      LookupSkips(headers[1..], more, key);
    }
  }

  lemma LengthReads(n: nat)
    requires n <= UINT32_MAX
    ensures IsUint(Text(n)) && Value(Text(n)) == n && |Text(n)| <= 10 && Printable(Text(n))
  {
    ReadPrinted(n);
    TenDigits(n);
  }

  lemma TenDigits(n: nat)
    requires n <= UINT32_MAX
    ensures |Text(n)| <= 10
  {
    assert Power10(10) == 10_000_000_000;
    PrintedLength(n, Power10(10), 10);
  }

  /** With no other length about, the generated one vouches for the body. */
  lemma BodyReads(headers: seq<Header>, body: string)
    requires |body| <= UINT32_MAX
    requires NoLength(headers)
    ensures BodyOf(body, headers + LengthHeader(body)) == Tail(headers + LengthHeader(body), body)
  {
    LookupSkips(headers, LengthHeader(body), "Content-Length");
    LengthReads(|body|);
    if body != "" {
      assert LengthHeader(body)[0] == LengthOf(body);
    }
  }

  predicate NoLength(headers: seq<Header>)
  {
    forall i :: 0 <= i < |headers| ==> !SameName(headers[i].key, "Content-Length")
  }

  lemma EndReads(body: string, seen: seq<Header>)
    requires |body| <= UINT32_MAX && |seen| <= MAX_HEADERS && NoLength(seen)
    ensures var t := ReadTail(BodyText(body), seen);
            if |seen + LengthHeader(body)| <= MAX_HEADERS
            then t == Tail(seen + LengthHeader(body), body) else t.Refused?
  {
    LengthLegal(body);
    LinesRead(LengthHeader(body), "\r\n" + body, seen);
    BlankReads(body, seen + LengthHeader(body));
    BodyReads(seen, body);
  }

  lemma KeptNoLength(seen: seq<Header>, headers: seq<Header>, skipDate: bool)
    requires NoLength(seen)
    ensures NoLength(seen + Kept(headers, skipDate))
  {
    var kept := Kept(headers, skipDate);
    forall i | 0 <= i < |kept|
      ensures !SameName(kept[i].key, "Content-Length")
    {
      assert kept[i] in kept;
    }
  }

  /** Everything a printed tail holds comes back. */
  lemma TailReads(headers: seq<Header>, skipDate: bool, body: string, seen: seq<Header>)
    requires AllLegal(Kept(headers, skipDate)) && AllHeld(Kept(headers, skipDate)) && |body| <= UINT32_MAX
    requires |seen| <= MAX_HEADERS && NoLength(seen)
    ensures var kept := Kept(headers, skipDate);
            var t := ReadTail(TailText(headers, skipDate, body), seen);
            if AllColonFree(kept) && |seen + kept + LengthHeader(body)| <= MAX_HEADERS
            then t == Tail(seen + kept + LengthHeader(body), body) else t.Refused?
  {
    var kept := Kept(headers, skipDate);
    LinesRead(kept, BodyText(body), seen);
    if AllColonFree(kept) && |seen| + |kept| <= MAX_HEADERS {
      KeptNoLength(seen, headers, skipDate);
      EndReads(body, seen + kept);
    }
  }

  lemma LengthLegal(body: string)
    requires |body| <= UINT32_MAX
    ensures AllLegal(LengthHeader(body)) && AllHeld(LengthHeader(body)) && AllColonFree(LengthHeader(body))
  {
    LengthReads(|body|);
  }

  // ---- requests --------------------------------------------------------------

  /** What a request must meet, beyond being serializable, for its peer to read it. */
  predicate Readable(req: Request)
  {
    AllColonFree(Kept(req.headers, false)) && |Sent(req)| <= MAX_HEADERS
  }

  lemma RequestLineReads(verb: string, path: string)
    requires verb != "" && path != "" && Visible(verb) && Visible(path) && |verb| < MAX_METHOD && |path| < MAX_PATH
    ensures ReadRequestLine(verb + " " + path + " " + VERSION) == Got((verb, path))
  {
    var line := verb + " " + path + " " + VERSION;
    var rest := path + " " + VERSION;
    IndexIs(line, ' ', |verb|);
    assert line[|verb| + 1..] == rest && line[..|verb|] == verb;
    IndexIs(rest, ' ', |path|);
    assert rest[..|path|] == path && rest[|path| + 1..] == VERSION;
    PrintableIsPlain(verb);
    PrintableIsPlain(path);
  }

  lemma RequestStarts(req: Request, rest: string)
    requires GoodLine(req) && |req.verb| < MAX_METHOD && |req.path| < MAX_PATH
    ensures ReadRequest(RequestLine(req) + rest) == WithTail(req.verb, req.path, ReadTail(rest, []))
  {
    var line := req.verb + " " + req.path + " " + VERSION;
    assert RequestLine(req) + rest == line + "\r\n" + rest;
    RequestLineReads(req.verb, req.path);
    LineEnds(line, rest);
  }

  /** A serialized request is read back, its length header regenerated last, exactly when it
      is readable; otherwise the peer refuses it and never reads another message from it. */
  lemma RequestRoundTrip(req: Request)
    requires InBounds(req) && Ruling(req) == Fine
    ensures ReadRequest(RequestText(req)) == Got(req.(headers := Sent(req))) <==> Readable(req)
    ensures !Readable(req) ==> ReadRequest(RequestText(req)).Rejected?
  {
    RequestStarts(req, TailText(req.headers, false, req.body));
    KeptHeld(req.headers, false);
    TailReads(req.headers, false, req.body, []);
    assert [] + Kept(req.headers, false) == Kept(req.headers, false);
  }

  lemma KeptHeld(headers: seq<Header>, skipDate: bool)
    requires AllHeld(headers)
    ensures AllHeld(Kept(headers, skipDate))
  {
    var kept := Kept(headers, skipDate);
    forall i | 0 <= i < |kept|
      ensures Held(kept[i])
    {
      assert kept[i] in headers;
    }
  }

  /** The serializer lets a colon through in a key that the reader then cannot take. */
  lemma ColonRefused(req: Request)
    requires req == Request("JOIN", "/e", [Header("a:b", "v")], "")
    ensures InBounds(req) && Ruling(req) == Fine && ReadRequest(RequestText(req)).Rejected?
  {
    var h := req.headers[0];
    assert h.key[1] == ':';
    assert |h.key| != |"Content-Length"|;
    assert Kept(req.headers, false) == [h] + Kept(req.headers[1..], false);
    assert Kept(req.headers, false)[0] == h;
    RequestRoundTrip(req);
  }

  // ---- a message read and passed on ------------------------------------------

  /** The header tables the reader builds. */
  predicate FromWire(headers: seq<Header>)
  {
    |headers| <= MAX_HEADERS && AllHeld(headers) && AllColonFree(headers)
  }

  lemma HeaderFromWire(line: string, room: bool)
    requires ReadHeader(line, room).Got?
    ensures room && Held(ReadHeader(line, room).message) && ColonFree(ReadHeader(line, room).message.key)
  {
  }

  lemma {:induction false} TableFromWire(s: string, seen: seq<Header>)
    requires FromWire(seen) && ReadTail(s, seen).Tail?
    ensures FromWire(ReadTail(s, seen).headers) && |ReadTail(s, seen).body| <= UINT32_MAX
    ensures ReadTail(s, seen).body != "" ==> HeaderGet(ReadTail(s, seen).headers, "Content-Length").0
    decreases |s|
  {
    var e := LineEnd(s);
    if e > 0 {
      HeaderFromWire(s[..e], |seen| < MAX_HEADERS);
      TableFromWire(s[e + 2..], seen + [ReadHeader(s[..e], |seen| < MAX_HEADERS).message]);
    }
  }

  lemma {:induction false} KeptFewer(headers: seq<Header>, skipDate: bool)
    ensures HeaderGet(headers, "Content-Length").0 ==> |Kept(headers, skipDate)| < |headers|
    ensures AllColonFree(headers) ==> AllColonFree(Kept(headers, skipDate))
  {
    var kept := Kept(headers, skipDate);
    forall i | AllColonFree(headers) && 0 <= i < |kept|
      ensures ColonFree(kept[i].key)
    {
      assert kept[i] in headers;
    }
    FewerByOne(headers, skipDate);
  }

  lemma {:induction false} FewerByOne(headers: seq<Header>, skipDate: bool)
    ensures HeaderGet(headers, "Content-Length").0 ==> |Kept(headers, skipDate)| < |headers|
  {
    if headers != [] && !SameName(headers[0].key, "Content-Length") {
      FewerByOne(headers[1..], skipDate);
    }
  }

  /** A request that arrived can be passed on: whatever the serializer accepts of what the
      reader produced, the next peer reads with the same method, path, body and headers. */
  lemma Forwarded(s: string, req: Request)
    requires ReadRequest(s) == Got(req) && Ruling(req) == Fine
    ensures ReadRequest(RequestText(req)) == Got(req.(headers := Sent(req)))
  {
    var e := LineEnd(s);
    TableFromWire(s[e + 2..], []);
    KeptFewer(req.headers, false);
    LineHeld(s[..e]);
    RequestRoundTrip(req);
  }

  lemma LineHeld(line: string)
    requires ReadRequestLine(line).Got?
    ensures |ReadRequestLine(line).message.0| < MAX_METHOD && |ReadRequestLine(line).message.1| < MAX_PATH
  {
  }

  // ---- responses -----------------------------------------------------------------

  predicate AnswerReadable(res: Response, date: string)
  {
    AllColonFree(Kept(res.headers, true)) && |Answered(res, date)| <= MAX_HEADERS
  }

  lemma StatusReads(digits: string, reason: string)
    requires IsCode(digits) && Printable(reason)
    ensures ReadStatus(VERSION + " " + digits + " " + reason) == Got(Value(digits))
    ensures Printable(VERSION + " " + digits + " " + reason)
  {
    var line := VERSION + " " + digits + " " + reason;
    var rest := digits + " " + reason;
    assert line[..|VERSION|] == VERSION && line[|VERSION|] == ' ' && line[|VERSION| + 1..] == rest;
    IndexIs(rest, ' ', |digits|);
    assert rest[..|digits|] == digits;
  }

  lemma ReasonPrintable(code: int)
    ensures Printable(Reason(code)) && (Reason(code) != "" ==> 200 <= code <= 501)
  {
    if 400 <= code < 410 {
      ClientReasonPrintable(code);
    } else if 410 <= code < 500 {
      LateReasonPrintable(code);
    } else if 500 <= code {
      ServerReasonPrintable(code);
    }
  }

  lemma ClientReasonPrintable(code: int)
    requires 400 <= code < 410
    ensures Printable(Reason(code))
  {
  }

  lemma LateReasonPrintable(code: int)
    requires 410 <= code < 500
    ensures Printable(Reason(code))
  {
  }

  lemma ServerReasonPrintable(code: int)
    requires 500 <= code
    ensures Printable(Reason(code)) && (Reason(code) != "" ==> code <= 501)
  {
  }

  /** What strftime can produce. */
  predicate IsDate(date: string) { |date| < 48 && Printable(date) }

  lemma DateLegal(date: string)
    requires IsDate(date)
    ensures Legal(Dated(date)) && Held(Dated(date)) && ColonFree(Dated(date).key) && NoLength([Dated(date)])
  {
    assert |"Date"| != |"Content-Length"|;
  }

  /** The date, the kept headers and the length, as the peer reads them. */
  lemma DatedTailReads(res: Response, date: string)
    requires AllHeld(res.headers) && |res.body| <= UINT32_MAX && IsDate(date) && AllLegal(Kept(res.headers, true))
    ensures var t := ReadTail(Line(Dated(date)) + TailText(res.headers, true, res.body), []);
            if AnswerReadable(res, date) then t == Tail(Answered(res, date), res.body) else t.Refused?
  {
    DateLegal(date);
    LineReads(Dated(date), TailText(res.headers, true, res.body), []);
    KeptHeld(res.headers, true);
    TailReads(res.headers, true, res.body, [Dated(date)]);
    assert [] + [Dated(date)] == [Dated(date)];
  }

  lemma ResponseStarts(code: int, rest: string)
    requires Reason(code) != ""
    ensures ReadResponse(StatusLine(code) + rest) == AnswerWithTail(code, ReadTail(rest, []))
  {
    ReasonPrintable(code);
    LengthReads(code);
    StatusLineReads(IntText(code), Reason(code), rest);
  }

  lemma StatusLineReads(digits: string, reason: string, rest: string)
    requires IsCode(digits) && Printable(reason)
    ensures ReadResponse(VERSION + " " + digits + " " + reason + "\r\n" + rest)
         == AnswerWithTail(Value(digits), ReadTail(rest, []))
  {
    StatusReads(digits, reason);
    LineEnds(VERSION + " " + digits + " " + reason, rest);
  }

  /** A serialized response is read back with the generated date first and length last, exactly
      when it is readable; the generated headers count towards the limit. */
  lemma ResponseRoundTrip(res: Response, date: string)
    requires AllHeld(res.headers) && |res.body| <= UINT32_MAX && IsDate(date) && ResponseRuling(res) == Fine
    ensures ReadResponse(ResponseText(res, date)) == Got(res.(headers := Answered(res, date)))
       <==> AnswerReadable(res, date)
    ensures !AnswerReadable(res, date) ==> ReadResponse(ResponseText(res, date)).Rejected?
  {
    DatedTailReads(res, date);
    ResponseStarts(res.code, Line(Dated(date)) + TailText(res.headers, true, res.body));
    Regroup(StatusLine(res.code), Line(Dated(date)), TailText(res.headers, true, res.body));
  }

  lemma Regroup(a: string, b: string, c: string)
    ensures a + b + c == a + (b + c)
  {
  }
}
