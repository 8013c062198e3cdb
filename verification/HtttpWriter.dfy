/** Writing HTTTP messages into a caller's buffer: the serializers of src/libhtttp/htttp.c. */
module HtttpWriter {
  import opened Decimal
  import opened Htttp

  function Concat(parts: seq<string>): string
  {
    if parts == [] then "" else parts[0] + Concat(parts[1..])
  }

  lemma {:induction false} ConcatEnd(parts: seq<string>, i: nat)
    requires i < |parts|
    ensures Concat(parts[..i + 1]) == Concat(parts[..i]) + parts[i]
    ensures |Concat(parts[..i + 1])| <= |Concat(parts)|
  {
    if i == 0 {
      assert parts[..1] == [parts[0]] && parts[..1][1..] == [];
    } else {
      ConcatEnd(parts[1..], i - 1);
      assert parts[..i + 1][1..] == parts[1..][..i] && parts[..i][1..] == parts[1..][..i - 1];
    }
  }

  /** buf_append: nothing is written unless everything fits. */
  method Append(out: array<char>, off: nat, src: string) returns (status: Status, end: nat)
    requires off <= out.Length
    modifies out
    ensures status == (if |src| > out.Length - off then NoSpace else Fine)
    ensures status == Fine ==> end == off + |src| && out[..end] == old(out[..off]) + src
    ensures status != Fine ==> end == off && out[..] == old(out[..])
  {
    if |src| > out.Length - off {
      return NoSpace, off;
    }
    var i := 0;
    while i < |src|
      invariant 0 <= i <= |src|
      invariant out[..off] == old(out[..off])
      invariant out[off..off + i] == src[..i]
    {
      out[off + i] := src[i];
      i := i + 1;
    }
    end := off + |src|;
    assert out[off..end] == src;
    assert out[..end] == out[..off] + out[off..end];
    status := Fine;
  }

  /** A chain of appends that stops at the first that does not fit. */
  method AppendAll(out: array<char>, off: nat, parts: seq<string>) returns (status: Status, end: nat)
    requires off <= out.Length
    modifies out
    ensures status == (if |Concat(parts)| > out.Length - off then NoSpace else Fine)
    ensures off <= end <= out.Length && out[..off] == old(out[..off])
    ensures status == Fine ==> end == off + |Concat(parts)| && out[..end] == old(out[..off]) + Concat(parts)
  {
    status, end := Fine, off;
    var i := 0;
    assert out[..end] == old(out[..off]) + Concat(parts[..0]);
    while i < |parts|
      invariant 0 <= i <= |parts|
      invariant end == off + |Concat(parts[..i])| <= out.Length
      invariant out[..end] == old(out[..off]) + Concat(parts[..i])
    {
      ConcatEnd(parts, i);
      ghost var before := out[..end];
      status, end := Append(out, end, parts[i]);
      if status != Fine {
        assert out[..end] == before;
        assert out[..off] == out[..end][..off];
        return;
      }
      assert out[..end] == old(out[..off]) + Concat(parts[..i + 1]);
      i := i + 1;
    }
    assert parts[..i] == parts;
    assert out[..off] == out[..end][..off];
    status := Fine;
  }

  function Parts(h: Header): seq<string> { [h.key, ": ", h.value, "\r\n"] }

  lemma FourParts(a: string, b: string, c: string, d: string)
    ensures Concat([a, b, c, d]) == a + b + c + d
  {
    var parts := [a, b, c, d];
    ConcatEnd(parts, 0);
    ConcatEnd(parts, 1);
    ConcatEnd(parts, 2);
    ConcatEnd(parts, 3);
    assert parts[..0] == [] && parts[..4] == parts;
  }

  lemma LineParts(h: Header)
    ensures Concat(Parts(h)) == Line(h)
  {
    FourParts(h.key, ": ", h.value, "\r\n");
  }

  lemma SixParts(a: string, b: string, c: string, d: string, e: string, f: string)
    ensures Concat([a, b, c, d, e, f]) == a + b + c + d + e + f
  {
    var parts := [a, b, c, d, e, f];
    assert parts[..4] == [a, b, c, d];
    FourParts(a, b, c, d);
    ConcatEnd(parts, 4);
    ConcatEnd(parts, 5);
    assert parts[..6] == parts;
  }

  /** emit_header. */
  method EmitHeader(out: array<char>, off: nat, h: Header) returns (status: Status, end: nat)
    requires off <= out.Length
    modifies out
    ensures status == (if |Line(h)| > out.Length - off then NoSpace else Fine)
    ensures off <= end <= out.Length && out[..off] == old(out[..off])
    ensures status == Fine ==> end == off + |Line(h)| && out[..end] == old(out[..off]) + Line(h)
  {
    LineParts(h);
    status, end := AppendAll(out, off, Parts(h));
  }

  /** One turn of the header loop, as the text and the legality still to come see it. */
  lemma KeptStep(headers: seq<Header>, i: nat, skipDate: bool)
    requires i < |headers|
    ensures Dropped(headers[i], skipDate) ==> Kept(headers[i..], skipDate) == Kept(headers[i + 1..], skipDate)
    ensures !Dropped(headers[i], skipDate) ==>
              && Lines(Kept(headers[i..], skipDate)) == Line(headers[i]) + Lines(Kept(headers[i + 1..], skipDate))
              && (AllLegal(Kept(headers[i..], skipDate)) <==> Legal(headers[i]) && AllLegal(Kept(headers[i + 1..], skipDate)))
  {
    assert headers[i..][1..] == headers[i + 1..];
    var now, then' := Kept(headers[i..], skipDate), Kept(headers[i + 1..], skipDate);
    if !Dropped(headers[i], skipDate) {
      assert now == [headers[i]] + then';
      assert now[0] == headers[i] && now[1..] == then';
      assert forall k :: 0 <= k < |then'| ==> then'[k] == now[k + 1];
    }
  }

  /** What the header loop answers when everything fits. */
  function HeaderRuling(headers: seq<Header>, skipDate: bool): Status
  {
    if |headers| > MAX_HEADERS then TooLong
    else if !AllLegal(Kept(headers, skipDate)) then Malformed
    else Fine
  }

  /** valid_field. */
  method ValidField(s: string, allowSpace: bool) returns (valid: bool)
    ensures valid == if allowSpace then Printable(s) else Visible(s)
  {
    var i := 0;
    while i < |s|
      invariant 0 <= i <= |s|
      invariant if allowSpace then Printable(s[..i]) else Visible(s[..i])
    {
      if !('!' <= s[i] <= '~') && !(allowSpace && s[i] == ' ') {
        return false;
      }
      i := i + 1;
    }
    assert s[..i] == s;
    valid := true;
  }

  /** The checks and the append for one header that goes out. */
  method EmitChecked(out: array<char>, off: nat, h: Header) returns (status: Status, end: nat)
    requires off <= out.Length
    modifies out
    ensures status == (if !Legal(h) then Malformed else if |Line(h)| > out.Length - off then NoSpace else Fine)
    ensures off <= end <= out.Length && out[..off] == old(out[..off])
    ensures status == Fine ==> end == off + |Line(h)| && out[..end] == old(out[..off]) + Line(h)
  {
    var key := ValidField(h.key, false);
    var value := ValidField(h.value, true);
    if h.key == "" || !key || !value {
      return Malformed, off;
    }
    status, end := EmitHeader(out, off, h);
  }

  lemma Shift(done: string, line: string, rest: string)
    ensures done + (line + rest) == (done + line) + rest
  {
  }

  /** emit_headers. */
  method EmitHeaders(out: array<char>, off: nat, headers: seq<Header>, skipDate: bool) returns (status: Status, end: nat)
    requires off <= out.Length
    modifies out
    ensures off <= end <= out.Length
    ensures status == Fine ==> out[..end] == old(out[..off]) + Lines(Kept(headers, skipDate))
    ensures off + |Lines(Kept(headers, skipDate))| <= out.Length ==> status == HeaderRuling(headers, skipDate)
    ensures off + |Lines(Kept(headers, skipDate))| > out.Length ==> status != Fine
    ensures off + |Lines(Kept(headers, skipDate))| > out.Length && HeaderRuling(headers, skipDate) == Fine ==> status == NoSpace
  {
    status, end := TooLong, off;
    if |headers| > MAX_HEADERS {
      return;
    }
    ghost var text := old(out[..off]) + Lines(Kept(headers, skipDate));
    assert headers[0..] == headers;
    var i := 0;
    while i < |headers|
      invariant 0 <= i <= |headers|
      invariant off <= end <= out.Length
      invariant text == out[..end] + Lines(Kept(headers[i..], skipDate))
      invariant AllLegal(Kept(headers, skipDate)) <==> AllLegal(Kept(headers[i..], skipDate))
    {
      KeptStep(headers, i, skipDate);
      if !Dropped(headers[i], skipDate) {
        ghost var before := out[..end];
        status, end := EmitChecked(out, end, headers[i]);
        if status != Fine {
          return;
        }
        Shift(before, Line(headers[i]), Lines(Kept(headers[i + 1..], skipDate)));
      }
      i := i + 1;
    }
    assert text == out[..end];
    status := Fine;
  }

  /** emit_body: the generated length when there is a body, the blank line, the body. */
  method EmitBody(out: array<char>, off: nat, body: string) returns (status: Status, end: nat)
    requires off <= out.Length
    modifies out
    ensures off <= end <= out.Length
    ensures status == (if off + |BodyText(body)| > out.Length then NoSpace else Fine)
    ensures status == Fine ==> out[..end] == old(out[..off]) + BodyText(body)
  {
    ghost var start := out[..off];
    status, end := Fine, off;
    LengthLine(body);
    if |body| > 0 {
      status, end := EmitHeader(out, off, LengthOf(body));
    }
    if status == Fine {
      status, end := Append(out, end, "\r\n");
    }
    if status == Fine {
      status, end := Append(out, end, body);
      Shift4(start, Lines(LengthHeader(body)), "\r\n", body);
    }
  }

  lemma LengthLine(body: string)
    ensures Lines(LengthHeader(body)) == if body == "" then "" else Line(LengthOf(body))
  {
    if body != "" {
      OneLine(LengthOf(body));
    }
  }

  lemma OneLine(h: Header)
    ensures Lines([h]) == Line(h)
  {
    assert Lines([h]) == Line(h) + Lines([]);
  }

  lemma Shift4(a: string, b: string, c: string, d: string)
    ensures a + b + c + d == a + (b + (c + d))
    ensures "" + (c + d) == c + d
  {
  }

  /** The common end of both serializers. */
  method EmitTail(out: array<char>, off: nat, headers: seq<Header>, skipDate: bool, body: string)
    returns (status: Status, end: nat)
    requires off <= out.Length
    modifies out
    ensures off <= end <= out.Length
    ensures status == Fine ==> out[..end] == old(out[..off]) + TailText(headers, skipDate, body)
    ensures off + |TailText(headers, skipDate, body)| <= out.Length ==> status == HeaderRuling(headers, skipDate)
    ensures off + |TailText(headers, skipDate, body)| > out.Length ==> status != Fine
    ensures off + |TailText(headers, skipDate, body)| > out.Length && HeaderRuling(headers, skipDate) == Fine ==> status == NoSpace
  {
    ghost var start := out[..off];
    status, end := EmitHeaders(out, off, headers, skipDate);
    if status == Fine {
      status, end := EmitBody(out, end, body);
      Shift(start, Lines(Kept(headers, skipDate)), BodyText(body));
    }
  }

  /** The request line, or nothing when a field of it is bad. */
  method EmitRequestLine(out: array<char>, req: Request) returns (status: Status, end: nat)
    modifies out
    ensures end <= out.Length
    ensures status == (if !GoodLine(req) then Malformed else if |RequestLine(req)| > out.Length then NoSpace else Fine)
    ensures status == Fine ==> out[..end] == RequestLine(req)
  {
    var verb := ValidField(req.verb, false);
    var path := ValidField(req.path, false);
    if req.verb == "" || req.path == "" || !verb || !path {
      return Malformed, 0;
    }
    SixParts(req.verb, " ", req.path, " ", VERSION, "\r\n");
    status, end := AppendAll(out, 0, [req.verb, " ", req.path, " ", VERSION, "\r\n"]);
  }

  /** htttp_serialize_request; status Fine exactly when the request is legal and fits. */
  method SerializeRequest(req: Request, out: array<char>) returns (status: Status, len: nat)
    modifies out
    ensures len <= out.Length
    ensures status == Fine <==> Ruling(req) == Fine && |RequestText(req)| <= out.Length
    ensures status == Fine ==> out[..len] == RequestText(req)
    ensures |RequestText(req)| <= out.Length ==> status == Ruling(req)
    ensures Ruling(req) == Fine && |RequestText(req)| > out.Length ==> status == NoSpace
  {
    status, len := EmitRequestLine(out, req);
    if status == Fine {
      status, len := EmitTail(out, len, req.headers, false, req.body);
    }
  }

  /** The status line and the generated date. */
  method EmitStatusLine(out: array<char>, code: int, date: string) returns (status: Status, end: nat)
    modifies out
    ensures end <= out.Length
    ensures status == (if Reason(code) == "" then Malformed
                       else if |StatusLine(code) + Line(Dated(date))| > out.Length then NoSpace else Fine)
    ensures status == Fine ==> out[..end] == StatusLine(code) + Line(Dated(date))
  {
    var reason := Reason(code);
    if reason == "" {
      return Malformed, 0;
    }
    SixParts(VERSION, " ", IntText(code), " ", reason, "\r\n");
    status, end := AppendAll(out, 0, [VERSION, " ", IntText(code), " ", reason, "\r\n"]);
    if status == Fine {
      status, end := EmitHeader(out, end, Dated(date));
    }
  }

  /** htttp_serialize_response, the clock's date given. */
  method SerializeResponse(res: Response, date: string, out: array<char>) returns (status: Status, len: nat)
    modifies out
    ensures len <= out.Length
    ensures status == Fine <==> ResponseRuling(res) == Fine && |ResponseText(res, date)| <= out.Length
    ensures status == Fine ==> out[..len] == ResponseText(res, date)
    ensures |ResponseText(res, date)| <= out.Length ==> status == ResponseRuling(res)
    ensures ResponseRuling(res) == Fine && |ResponseText(res, date)| > out.Length ==> status == NoSpace
  {
    status, len := EmitStatusLine(out, res.code, date);
    if status == Fine {
      status, len := EmitTail(out, len, res.headers, true, res.body);
    }
  }
}
