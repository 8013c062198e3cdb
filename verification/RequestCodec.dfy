/** Requests as HTTTP messages: bcl_encode_request and bcl_decode_request of src/libballotclient/codec.c. */
module RequestCodec {
  import opened Options
  import opened CodecBody
  import opened CodecFields
  import H = Htttp
  import W = HtttpWriter
  import R = HtttpRoundTrip

  datatype Op =
    | Join | Cast | Update | Results | Check | Create | Open | Close | Publish
    | AdminResults | AdminCheck | AdminNextId

  function Verb(op: Op): string
  {
    match op
    case Join => "JOIN"
    case Cast => "CAST"
    case Update => "UPDATE"
    case Results => "RESULTS"
    case Check => "CHECK"
    case Create => "CREATE"
    case Open => "OPEN"
    case Close => "CLOSE"
    case Publish => "PUBLISH"
    case AdminResults => "ADMIN_RESULTS"
    case AdminCheck => "ADMIN_CHECK"
    case AdminNextId => "ADMIN_NEXT_ID"
  }

  function OpOf(verb: string): (op: Option<Op>)
    ensures op.Some? ==> Verb(op.value) == verb
  {
    if verb == "JOIN" then Some(Join)
    else if verb == "CAST" then Some(Cast)
    else if verb == "UPDATE" then Some(Update)
    else if verb == "RESULTS" then Some(Results)
    else if verb == "CHECK" then Some(Check)
    else if verb == "CREATE" then Some(Create)
    else if verb == "OPEN" then Some(Open)
    else if verb == "CLOSE" then Some(Close)
    else if verb == "PUBLISH" then Some(Publish)
    else if verb == "ADMIN_RESULTS" then Some(AdminResults)
    else if verb == "ADMIN_CHECK" then Some(AdminCheck)
    else if verb == "ADMIN_NEXT_ID" then Some(AdminNextId)
    else None
  }

  lemma OpNamed(op: Op)
    ensures OpOf(Verb(op)) == Some(op)
  {
  }

  lemma VerbVisible(op: Op)
    ensures 0 < |Verb(op)| < H.MAX_METHOD && H.Visible(Verb(op))
  {
  }

  /** bcl_request_t; arrays and their counts are sequences. */
  datatype Request = Request(op: Op, cert: string, id: string,
                             ballotCert: string, nonce: string, payload: seq<Byte>,
                             hash: string,
                             title: string, openTime: string, closeTime: string,
                             options: seq<string>, eligible: seq<string>)

  /** The zeroed struct. */
  function Blank(op: Op): Request
  {
    Request(op, "", "", "", "", [], "", "", "", "", [], [])
  }

  /** What the struct can hold. */
  predicate InBounds(req: Request)
  {
    && Fits(req.cert, CERT_LEN) && Fits(req.id, ID_LEN) && Fits(req.ballotCert, CERT_LEN)
    && Fits(req.nonce, NONCE_LEN) && |req.payload| <= CIPHERTEXT_MAX && Fits(req.hash, HASH_LEN)
    && Fits(req.title, TITLE_LEN) && Fits(req.openTime, TIME_LEN) && Fits(req.closeTime, TIME_LEN)
    && |req.options| <= MAX_OPTIONS && AllFit(req.options, OPTION_LEN)
    && |req.eligible| <= MAX_VOTERS && AllFit(req.eligible, CERT_LEN)
  }

  predicate IsBallot(op: Op) { op.Cast? || op.Update? }

  predicate IsCheck(op: Op) { op.Check? || op.AdminCheck? }

  predicate HasPathId(op: Op) { !op.Create? && !op.AdminNextId? }

  /** Only the fields the op uses are filled. */
  predicate OnlyItsFields(req: Request)
  {
    var b := Blank(req.op);
    match req.op
    case Create =>
      req == b.(cert := req.cert, id := req.id, title := req.title, openTime := req.openTime,
                closeTime := req.closeTime, options := req.options, eligible := req.eligible)
    case AdminNextId => req == b.(cert := req.cert)
    case _ =>
      if IsBallot(req.op) then
        req == b.(cert := req.cert, id := req.id, ballotCert := req.cert, nonce := req.nonce, payload := req.payload)
      else if IsCheck(req.op) then req == b.(cert := req.cert, id := req.id, hash := req.hash)
      else req == b.(cert := req.cert, id := req.id)
  }

  // ---- encoding ----------------------------------------------------------------

  function CreateHead(req: Request): seq<Field>
  {
    (if req.id == "" then [] else [Field(ElectionId, req.id)])
    + [Field(Title, req.title), Field(OpenTime, req.openTime), Field(CloseTime, req.closeTime)]
  }

  function Fields(req: Request): seq<Field>
  {
    if req.op.Create? then CreateHead(req) + Named(OptionName, req.options) + Named(Eligible, req.eligible)
    else if IsBallot(req.op) then [Field(Nonce, req.nonce), Field(Payload, HexText(req.payload))]
    else if IsCheck(req.op) then [Field(Hash, req.hash)]
    else []
  }

  function Suffix(op: Op): string
  {
    if IsBallot(op) then "/ballot" else if IsCheck(op) then "/check" else ""
  }

  function Path(req: Request): string
  {
    if req.op.Create? then "/election"
    else if req.op.AdminNextId? then "/election/next-id"
    else "/election/" + req.id + Suffix(req.op)
  }

  function CertHeaders(cert: string): seq<H.Header>
  {
    if cert == "" then [] else [CertHeader(cert)]
  }

  function CertHeader(cert: string): H.Header { H.Header("Cert-Name", cert) }

  function BodyOf(req: Request): string { FieldsText(ToPairs(Fields(req))) }

  function Http(req: Request): H.Request
  {
    H.Request(Verb(req.op), Path(req), CertHeaders(req.cert), BodyOf(req))
  }

  /** No field breaks its line, and path and header take their characters. */
  predicate Encodable(req: Request)
  {
    && AllUnbrokenFields(Fields(req))
    && (HasPathId(req.op) ==> H.Visible(req.id))
    && H.Printable(req.cert)
  }

  // ---- every in-bounds body fits -------------------------------------------------

  /** A request body never outgrows the encoder's buffer. */
  lemma BodyFits(req: Request)
    requires InBounds(req)
    ensures |BodyOf(req)| < BODY_MAX
  {
    var fields := Fields(req);
    var each := if IsBallot(req.op) then 534 else 85 + 1;
    forall i | 0 <= i < |fields|
      ensures |FieldText(ToPairs(fields)[i])| <= each
    {
      KeyShort(fields[i].key);
      ValueShort(req, i);
    }
    TextBound(ToPairs(fields), each);
  }

  lemma CreateFieldFits(req: Request, i: nat)
    requires InBounds(req) && req.op.Create? && i < |Fields(req)|
    ensures Fits(Fields(req)[i].value, TITLE_LEN)
  {
    var head := CreateHead(req);
    if i >= |head| + |req.options| {
      assert Fields(req)[i] == Named(Eligible, req.eligible)[i - |head| - |req.options|];
    } else if i >= |head| {
      assert Fields(req)[i] == Named(OptionName, req.options)[i - |head|];
    } else {
      assert Fields(req)[i] == head[i];
    }
  }

  lemma ValueShort(req: Request, i: nat)
    requires InBounds(req) && i < |Fields(req)|
    ensures |Fields(req)[i].value| <= if IsBallot(req.op) then 512 else 64
  {
    if req.op.Create? {
      CreateFieldFits(req, i);
    }
  }

  // ---- bcl_encode_request ----------------------------------------------------------

  lemma Legal(req: Request)
    requires InBounds(req)
    ensures H.InBounds(Http(req)) && H.Kept(CertHeaders(req.cert), false) == CertHeaders(req.cert)
    ensures H.Ruling(Http(req)) == H.Fine <==> (HasPathId(req.op) ==> H.Visible(req.id)) && H.Printable(req.cert)
  {
    VerbVisible(req.op);
    PathVisible(req);
    BodyFits(req);
    CertKept(req.cert);
  }

  lemma PathVisible(req: Request)
    requires InBounds(req)
    ensures H.Visible(Path(req)) <==> (HasPathId(req.op) ==> H.Visible(req.id))
    ensures 0 < |Path(req)| < H.MAX_PATH
  {
    if HasPathId(req.op) {
      var path := Path(req);
      assert forall i :: 0 <= i < |req.id| ==> path[10 + i] == req.id[i];
      if H.Visible(path) {
        forall i | 0 <= i < |req.id|
          ensures '!' <= req.id[i] <= '~'
        {
          assert path[10 + i] == req.id[i];
        }
      }
    }
  }

  lemma CertKept(cert: string)
    requires Fits(cert, CERT_LEN)
    ensures H.Kept(CertHeaders(cert), false) == CertHeaders(cert)
    ensures H.AllHeld(CertHeaders(cert)) && R.AllColonFree(CertHeaders(cert))
    ensures H.AllLegal(CertHeaders(cert)) <==> H.Printable(cert)
  {
    if cert != "" {
      var h := CertHeader(cert);
      assert |h.key| != |"Content-Length"|;
      assert H.Kept([h], false) == [h] + H.Kept([h][1..], false);
      assert [h][1..] == [];
      assert CertHeaders(cert)[0] == h;
    }
  }

  /** The lines of a request; a payload goes through hex_encode, whose buffer always suffices. */
  method LinesOf(req: Request) returns (fields: seq<Field>)
    requires InBounds(req)
    ensures fields == Fields(req)
  {
    fields := Fields(req);
    if IsBallot(req.op) {
      var ok, hex := HexEncode(req.payload, 2 * CIPHERTEXT_MAX + 1);
      fields := [Field(Nonce, req.nonce), Field(Payload, hex)];
    }
  }

  /** bcl_encode_request: it succeeds exactly on encodable requests that fit, with their text. */
  method EncodeRequest(req: Request, out: array<char>) returns (ok: bool, len: nat)
    requires InBounds(req)
    modifies out
    ensures len <= out.Length
    ensures ok <==> Encodable(req) && |H.RequestText(Http(req))| <= out.Length
    ensures ok ==> out[..len] == H.RequestText(Http(req))
  {
    len := 0;
    var fields := LinesOf(req);
    PairsPlain(fields);
    BodyFits(req);
    Legal(req);
    var body;
    ok, body := WriteFields(ToPairs(fields));
    if !ok {
      return;
    }
    if req.cert != "" {
      var valid := W.ValidField(req.cert, true);
      if !valid {
        return false, 0;
      }
    }
    var status;
    status, len := W.SerializeRequest(H.Request(Verb(req.op), Path(req), CertHeaders(req.cert), body), out);
    ok := status == H.Fine;
  }

  // ---- decoding --------------------------------------------------------------------

  /** The struct being filled and whether a readable payload has come. */
  datatype Draft = Draft(req: Request, gotPayload: bool)

  function CreateField(req: Request, f: Field): Request
  {
    match f.key
    case ElectionId => req.(id := Cut(f.value, ID_LEN))
    case Title => req.(title := Cut(f.value, TITLE_LEN))
    case OpenTime => req.(openTime := Cut(f.value, TIME_LEN))
    case CloseTime => req.(closeTime := Cut(f.value, TIME_LEN))
    case OptionName =>
      if |req.options| < MAX_OPTIONS then req.(options := req.options + [Cut(f.value, OPTION_LEN)]) else req
    case Eligible =>
      if |req.eligible| < MAX_VOTERS then req.(eligible := req.eligible + [Cut(f.value, CERT_LEN)]) else req
    case _ => req
  }

  /** The first bytes of a payload after others were written over it. */
  function Overwritten(bytes: seq<Byte>, payload: seq<Byte>): (r: seq<Byte>)
    ensures |r| == |payload|
  {
    if |bytes| <= |payload| then WrittenOver(bytes, payload) else bytes[..|payload|]
  }

  function BallotField(d: Draft, f: Field): Draft
  {
    match f.key
    case Nonce => d.(req := d.req.(nonce := Cut(f.value, NONCE_LEN)))
    case Payload =>
      var bytes := Written(f.value, CIPHERTEXT_MAX);
      if |f.value| / 2 <= CIPHERTEXT_MAX && HexRead(f.value).Some? then Draft(d.req.(payload := bytes), true)
      // an unreadable payload overwrites the bytes of an earlier one, and keeps its length
      else d.(req := d.req.(payload := Overwritten(bytes, d.req.payload)))
    case _ => d
  }

  /** One received line, as the op's callback takes it. */
  function Take(d: Draft, f: Field): Draft
  {
    if d.req.op.Create? then d.(req := CreateField(d.req, f))
    else if IsBallot(d.req.op) then BallotField(d, f)
    else if IsCheck(d.req.op) && f.key.Hash? then d.(req := d.req.(hash := Cut(f.value, HASH_LEN)))
    else d
  }

  function TakeAll(d: Draft, fields: seq<Field>): Draft
    decreases |fields|
  {
    if fields == [] then d else TakeAll(Take(d, fields[0]), fields[1..])
  }

  /** path_election_id. */
  function PathId(path: string): Option<string>
  {
    if |path| < 10 || path[..10] != "/election/" then None
    else
      var rest := path[10..];
      var n := H.IndexOf(rest, '/');
      if n == 0 then None else Some(rest[..if n < ID_LEN then n else ID_LEN - 1])
  }

  function WithCert(op: Op, headers: seq<H.Header>): Request
  {
    var (found, cert) := H.HeaderGet(headers, "Cert-Name");
    if found then Blank(op).(cert := Cut(cert, CERT_LEN)) else Blank(op)
  }

  /** What the decoder makes of the op, the caller, the path and the lines. */
  function Assemble(start: Request, path: string, fields: seq<Field>): Option<Request>
  {
    if start.op.Create? then Some(TakeAll(Draft(start, false), fields).req)
    else if start.op.AdminNextId? then Some(start)
    else
      match PathId(path)
      case None => None
      case Some(id) =>
        if IsBallot(start.op) then
          var d := TakeAll(Draft(start.(id := id, ballotCert := start.cert), false), fields);
          if d.gotPayload then Some(d.req) else None
        else if IsCheck(start.op) then
          var d := TakeAll(Draft(start.(id := id), false), fields);
          if d.req.hash != "" then Some(d.req) else None
        else Some(start.(id := id))
  }

  function Decode(h: H.Request): Option<Request>
  {
    match OpOf(h.verb)
    case None => None
    case Some(op) => Assemble(WithCert(op, h.headers), h.path, Known(Pairs(h.body)))
  }

  /** Whatever lines a body holds, a decoded request fills only the fields its op uses. */
  lemma DecodedFields(h: H.Request)
    requires Decode(h).Some?
    ensures Some(Decode(h).value.op) == OpOf(h.verb) && OnlyItsFields(Decode(h).value)
  {
    var start := WithCert(OpOf(h.verb).value, h.headers);
    var fields := Known(Pairs(h.body));
    match start.op
    case Create => TakenFields(Draft(start, false), fields);
    case AdminNextId =>
    case _ =>
      var id := PathId(h.path).value;
      if IsBallot(start.op) {
        TakenFields(Draft(start.(id := id, ballotCert := start.cert), false), fields);
      } else if IsCheck(start.op) {
        TakenFields(Draft(start.(id := id), false), fields);
      }
  }

  lemma {:induction false} TakenFields(d: Draft, fields: seq<Field>)
    requires OnlyItsFields(d.req)
    ensures OnlyItsFields(TakeAll(d, fields).req)
    ensures TakeAll(d, fields).req.op == d.req.op && TakeAll(d, fields).req.cert == d.req.cert
    decreases |fields|
  {
    if fields != [] {
      TakenFields(Take(d, fields[0]), fields[1..]);
    }
  }

  /** A ballot needs a readable payload, and a receipt check a hash. */
  lemma DecodedLines(h: H.Request)
    requires Decode(h).Some?
    ensures IsBallot(Decode(h).value.op) ==>
              exists f :: f in Known(Pairs(h.body)) && f.key.Payload? && HexRead(f.value).Some?
    ensures IsCheck(Decode(h).value.op) ==> exists f :: f in Known(Pairs(h.body)) && f.key.Hash? && f.value != ""
  {
    DecodedFields(h);
    var start := WithCert(OpOf(h.verb).value, h.headers);
    var fields := Known(Pairs(h.body));
    if IsBallot(start.op) {
      PayloadCame(Draft(start.(id := PathId(h.path).value, ballotCert := start.cert), false), fields);
    } else if IsCheck(start.op) {
      HashCame(Draft(start.(id := PathId(h.path).value), false), fields);
    }
  }

  lemma {:induction false} PayloadCame(d: Draft, fields: seq<Field>)
    requires TakeAll(d, fields).gotPayload && !d.gotPayload
    ensures exists f :: f in fields && f.key.Payload? && HexRead(f.value).Some?
    decreases |fields|
  {
    var e := Take(d, fields[0]);
    if e.gotPayload {
      assert fields[0].key.Payload? && HexRead(fields[0].value).Some?;
    } else {
      PayloadCame(e, fields[1..]);
    }
  }

  lemma {:induction false} HashCame(d: Draft, fields: seq<Field>)
    requires IsCheck(d.req.op) && TakeAll(d, fields).req.hash != "" && d.req.hash == ""
    ensures exists f :: f in fields && f.key.Hash? && f.value != ""
    decreases |fields|
  {
    var e := Take(d, fields[0]);
    if e.req.hash != "" {
      assert fields[0].key.Hash? && fields[0].value != "";
    } else {
      HashCame(e, fields[1..]);
    }
  }

  /** The election a path names: its first part behind /election/, cut to the field. */
  lemma PathIdMeans(path: string, id: string, suffix: string)
    requires '/' !in id && (suffix == "" || suffix[0] == '/')
    ensures path == "/election/" + id + suffix ==> PathId(path) == if id == "" then None else Some(Cut(id, 16))
    ensures !("/election/" <= path) ==> PathId(path) == None
  {
    if path == "/election/" + id + suffix {
      assert path[..10] == "/election/" && path[10..] == id + suffix;
      H.IndexIs(id + suffix, '/', |id|);
      var k := if |id| < ID_LEN then |id| else ID_LEN - 1;
      assert (id + suffix)[..k] == id[..k] && id[..|id|] == id;
    }
  }

  /** The message of a ballot. */
  lemma BallotMessage(req: Request)
    requires IsBallot(req.op)
    ensures Path(req) == "/election/" + req.id + "/ballot"
    ensures BodyOf(req) == "nonce=" + req.nonce + "\n" + "payload=" + HexText(req.payload) + "\n"
  {
    var hex := HexText(req.payload);
    assert ToPairs(Fields(req)) == [Pair("nonce", req.nonce), Pair("payload", hex)];
    TwoLines("nonce", req.nonce, "payload", hex);
  }

  /** The message of a receipt check. */
  lemma CheckMessage(req: Request)
    requires IsCheck(req.op)
    ensures Path(req) == "/election/" + req.id + "/check" && BodyOf(req) == "hash=" + req.hash + "\n"
  {
    var pairs := ToPairs(Fields(req));
    assert pairs == [Pair("hash", req.hash)];
    assert FieldsText(pairs[1..]) == "";
  }

  lemma TwoLines(k: string, v: string, l: string, w: string)
    ensures FieldsText([Pair(k, v), Pair(l, w)]) == k + "=" + v + "\n" + l + "=" + w + "\n"
  {
    var pairs := [Pair(k, v), Pair(l, w)];
    assert pairs[1..] == [Pair(l, w)];
    assert FieldsText([Pair(l, w)][1..]) == "";
  }

  /** One line, through the callback of its op; a payload goes through hex_decode. */
  method TakeLine(d: Draft, f: Field) returns (d': Draft)
    requires |d.req.payload| <= CIPHERTEXT_MAX
    ensures d' == Take(d, f) && |d'.req.payload| <= CIPHERTEXT_MAX
  {
    if IsBallot(d.req.op) && f.key.Payload? {
      var payload := d.req.payload;
      var buffer := new Byte[CIPHERTEXT_MAX](i => if 0 <= i < |payload| then payload[i] else 0);
      ghost var was := buffer[..];
      assert was[..|payload|] == payload;
      PrefixReads(f.value);
      OddUnreadable(f.value);
      var n := HexDecode(f.value, buffer);
      if n.Some? {
        assert buffer[..n.value] == Written(f.value, CIPHERTEXT_MAX);
        d' := Draft(d.req.(payload := buffer[..n.value]), true);
      } else {
        assert buffer[..|payload|] == Overwritten(Written(f.value, CIPHERTEXT_MAX), payload);
        d' := d.(req := d.req.(payload := buffer[..|payload|]));
      }
    } else {
      d' := Take(d, f);
    }
  }

  /** The callbacks, run over the lines of a body. */
  method TakeLines(start: Draft, pairs: seq<Pair>) returns (d: Draft)
    requires |start.req.payload| <= CIPHERTEXT_MAX
    ensures d == TakeAll(start, Known(pairs))
  {
    d := start;
    var i := 0;
    ghost var whole := TakeAll(start, Known(pairs));
    assert pairs[0..] == pairs;
    while i < |pairs|
      invariant 0 <= i <= |pairs| && |d.req.payload| <= CIPHERTEXT_MAX
      invariant whole == TakeAll(d, Known(pairs[i..]))
    {
      KnownStep(d, pairs, i);
      var key := KeyOf(pairs[i].key);
      if key.Some? {
        d := TakeLine(d, Field(key.value, pairs[i].value));
      }
      i := i + 1;
    }
  }

  lemma KnownStep(d: Draft, pairs: seq<Pair>, i: nat)
    requires i < |pairs|
    ensures KeyOf(pairs[i].key) == None ==> TakeAll(d, Known(pairs[i..])) == TakeAll(d, Known(pairs[i + 1..]))
    ensures forall k :: KeyOf(pairs[i].key) == Some(k) ==>
              TakeAll(d, Known(pairs[i..])) == TakeAll(Take(d, Field(k, pairs[i].value)), Known(pairs[i + 1..]))
  {
    assert pairs[i..][1..] == pairs[i + 1..] && pairs[i..][0] == pairs[i];
    var later := Known(pairs[i + 1..]);
    forall k | KeyOf(pairs[i].key) == Some(k)
      ensures TakeAll(d, Known(pairs[i..])) == TakeAll(Take(d, Field(k, pairs[i].value)), later)
    {
      var now := [Field(k, pairs[i].value)] + later;
      assert now[0] == Field(k, pairs[i].value) && now[1..] == later;
    }
  }

  /** bcl_decode_request. */
  method DecodeRequest(h: H.Request) returns (r: Option<Request>)
    ensures r == Decode(h)
  {
    var op := OpOf(h.verb);
    if op.None? {
      return None;
    }
    var req := Blank(op.value);
    var found, cert := H.FindHeader(h.headers, "Cert-Name");
    if found {
      req := req.(cert := Cut(cert, CERT_LEN));
    }
    var pairs := BodyPairs(h.body);
    if req.op.Create? {
      var d := TakeLines(Draft(req, false), pairs);
      return Some(d.req);
    }
    if req.op.AdminNextId? {
      return Some(req);
    }
    var id := PathId(h.path);
    if id.None? {
      return None;
    }
    req := req.(id := id.value);
    if IsBallot(req.op) {
      var d := TakeLines(Draft(req.(ballotCert := req.cert), false), pairs);
      return if d.gotPayload then Some(d.req) else None;
    }
    if IsCheck(req.op) {
      var d := TakeLines(Draft(req, false), pairs);
      return if d.req.hash != "" then Some(d.req) else None;
    }
    return Some(req);
  }

  // ---- what arrives ------------------------------------------------------------------

  /** The id a path carries: nothing after a slash of its own. */
  function IdSeen(id: string): string { id[..H.IndexOf(id, '/')] }

  /** What the daemon decodes from what the client encoded, field by field. */
  function Arrives(req: Request): Option<Request>
  {
    if !HasPathId(req.op) then Some(req)
    else if IdSeen(req.id) == "" then None
    else if IsBallot(req.op) && |req.payload| > 159 then None
    else if IsCheck(req.op) && req.hash == "" then None
    else Some(req.(id := IdSeen(req.id)))
  }

  /** The requests that arrive as they were sent. */
  predicate Survives(req: Request)
  {
    && (HasPathId(req.op) ==> req.id != "" && '/' !in req.id)
    && (IsBallot(req.op) ==> |req.payload| <= 159)
    && (IsCheck(req.op) ==> req.hash != "")
  }

  lemma SurvivesIsArrives(req: Request)
    ensures Arrives(req) == Some(req) <==> Survives(req)
  {
    var n := H.IndexOf(req.id, '/');
    if '/' !in req.id {
      assert n == |req.id| && req.id[..n] == req.id;
    } else {
      assert n < |req.id|;
      assert |IdSeen(req.id)| < |req.id|;
    }
  }

  // ---- the callbacks undo the encoder -------------------------------------------------

  lemma {:induction false} TakeJoin(d: Draft, a: seq<Field>, b: seq<Field>)
    ensures TakeAll(d, a + b) == TakeAll(TakeAll(d, a), b)
    decreases |a|
  {
    if a == [] {
      assert a + b == b;
    } else {
      assert (a + b)[1..] == a[1..] + b;
      TakeJoin(Take(d, a[0]), a[1..], b);
    }
  }

  lemma {:induction false} TakeOptions(d: Draft, names: seq<string>)
    requires d.req.op.Create? && |d.req.options| + |names| <= MAX_OPTIONS && AllFit(names, OPTION_LEN)
    ensures TakeAll(d, Named(OptionName, names)) == d.(req := d.req.(options := d.req.options + names))
    decreases |names|
  {
    if names == [] {
      assert d.req.options + names == d.req.options;
    } else {
      assert Named(OptionName, names)[1..] == Named(OptionName, names[1..]);
      TakeOptions(Take(d, Field(OptionName, names[0])), names[1..]);
      assert d.req.options + [names[0]] + names[1..] == d.req.options + names;
    }
  }

  lemma {:induction false} TakeEligible(d: Draft, names: seq<string>)
    requires d.req.op.Create? && |d.req.eligible| + |names| <= MAX_VOTERS && AllFit(names, CERT_LEN)
    ensures TakeAll(d, Named(Eligible, names)) == d.(req := d.req.(eligible := d.req.eligible + names))
    decreases |names|
  {
    if names == [] {
      assert d.req.eligible + names == d.req.eligible;
    } else {
      assert Named(Eligible, names)[1..] == Named(Eligible, names[1..]);
      TakeEligible(Take(d, Field(Eligible, names[0])), names[1..]);
      assert d.req.eligible + [names[0]] + names[1..] == d.req.eligible + names;
    }
  }

  lemma TakeTwo(d: Draft, f: Field, g: Field)
    ensures TakeAll(d, [f, g]) == Take(Take(d, f), g)
  {
    assert [f, g][1..] == [g];
    TakeOne(Take(d, f), g);
  }

  lemma TakeOne(d: Draft, f: Field)
    ensures TakeAll(d, [f]) == Take(d, f)
  {
    assert [f][1..] == [];
    assert TakeAll(Take(d, f), []) == Take(d, f);
  }

  lemma TakeHead(req: Request)
    requires req.op.Create? && InBounds(req)
    ensures TakeAll(Draft(Blank(Create).(cert := req.cert), false), CreateHead(req)).req
         == Blank(Create).(cert := req.cert, id := req.id, title := req.title, openTime := req.openTime,
                           closeTime := req.closeTime)
    ensures !TakeAll(Draft(Blank(Create).(cert := req.cert), false), CreateHead(req)).gotPayload
  {
    var start := Draft(Blank(Create).(cert := req.cert), false);
    var id := if req.id == "" then [] else [Field(ElectionId, req.id)];
    var times := [Field(OpenTime, req.openTime), Field(CloseTime, req.closeTime)];
    assert CreateHead(req) == id + ([Field(Title, req.title)] + times);
    TakeJoin(start, id, [Field(Title, req.title)] + times);
    if req.id != "" {
      TakeOne(start, Field(ElectionId, req.id));
    }
    var named := TakeAll(start, id);
    TakeJoin(named, [Field(Title, req.title)], times);
    TakeOne(named, Field(Title, req.title));
    TakeTwo(Take(named, Field(Title, req.title)), Field(OpenTime, req.openTime), Field(CloseTime, req.closeTime));
  }

  lemma TakeCreate(req: Request)
    requires req.op.Create? && InBounds(req) && OnlyItsFields(req)
    ensures TakeAll(Draft(Blank(Create).(cert := req.cert), false), Fields(req)).req == req
  {
    var start := Draft(Blank(Create).(cert := req.cert), false);
    var head, options, eligible := CreateHead(req), Named(OptionName, req.options), Named(Eligible, req.eligible);
    TakeHead(req);
    TakeJoin(start, head + options, eligible);
    TakeJoin(start, head, options);
    TakeOptions(TakeAll(start, head), req.options);
    TakeEligible(TakeAll(TakeAll(start, head), options), req.eligible);
    assert [] + req.options == req.options && [] + req.eligible == req.eligible;
  }

  lemma TakeBallot(req: Request, start: Request)
    requires IsBallot(req.op) && InBounds(req) && start.op == req.op
    ensures var d := TakeAll(Draft(start, false), Received(Fields(req)));
            d.gotPayload == (|req.payload| <= 159)
            && (d.gotPayload ==> d.req == start.(nonce := req.nonce, payload := req.payload))
  {
    var nonce, hex := Field(Nonce, req.nonce), HexText(req.payload);
    var payload := Field(Payload, Cut(hex, VALUE_MAX));
    var fields := Fields(req);
    assert fields == [nonce, Field(Payload, hex)];
    assert Received(fields) == [nonce, payload] by {
      assert fields[1..] == [Field(Payload, hex)];
      assert fields[1..][1..] == [];
      assert Received(fields[1..]) == [payload] + Received([]);
    }
    TakeTwo(Draft(start, false), nonce, payload);
    HexRoundTrip(req.payload);
    PrefixReads(Cut(hex, VALUE_MAX));
    OddUnreadable(Cut(hex, VALUE_MAX));
  }

  lemma TakeHash(req: Request, start: Request)
    requires IsCheck(req.op) && InBounds(req) && start.op == req.op
    ensures TakeAll(Draft(start, false), Fields(req)).req == start.(hash := req.hash)
  {
    TakeOne(Draft(start, false), Field(Hash, req.hash));
  }

  lemma PathIdSeen(id: string, suffix: string)
    requires |id| < ID_LEN && (suffix == "" || suffix[0] == '/')
    ensures PathId("/election/" + id + suffix) == if IdSeen(id) == "" then None else Some(IdSeen(id))
  {
    var path := "/election/" + id + suffix;
    assert path[..10] == "/election/" && path[10..] == id + suffix;
    var n := H.IndexOf(id, '/');
    H.IndexIs(id + suffix, '/', n);
    assert (id + suffix)[..n] == id[..n];
  }

  lemma FieldsNulFree(req: Request)
    requires InBounds(req)
    ensures AllNulFreeFields(Fields(req))
    ensures !IsBallot(req.op) ==> AllShort(Fields(req))
  {
    HexUnbroken(req.payload);
    forall i | 0 <= i < |Fields(req)|
      ensures NulFree(Fields(req)[i].value)
    {
      FieldNulFree(req, i);
    }
    forall i | !IsBallot(req.op) && 0 <= i < |Fields(req)|
      ensures |Fields(req)[i].value| < VALUE_MAX
    {
      ValueShort(req, i);
    }
  }

  lemma FieldNulFree(req: Request, i: nat)
    requires InBounds(req) && i < |Fields(req)| && NulFree(HexText(req.payload))
    ensures NulFree(Fields(req)[i].value)
  {
    if req.op.Create? {
      CreateFieldFits(req, i);
    } else if IsBallot(req.op) {
      BallotNulFree(req, HexText(req.payload), i);
    }
  }

  lemma BallotNulFree(req: Request, hex: string, i: nat)
    requires i < 2 && NulFree(req.nonce) && NulFree(hex)
    ensures NulFree([Field(Nonce, req.nonce), Field(Payload, hex)][i].value)
  {
  }

  lemma AssembledBallot(req: Request)
    requires InBounds(req) && OnlyItsFields(req) && IsBallot(req.op)
    ensures Assemble(Blank(req.op).(cert := req.cert), Path(req), Received(Fields(req))) == Arrives(req)
  {
    PathIdSeen(req.id, Suffix(req.op));
    TakeBallot(req, Blank(req.op).(cert := req.cert, id := IdSeen(req.id), ballotCert := req.cert));
  }

  lemma AssembledCheck(req: Request)
    requires InBounds(req) && OnlyItsFields(req) && IsCheck(req.op)
    ensures Assemble(Blank(req.op).(cert := req.cert), Path(req), Fields(req)) == Arrives(req)
  {
    PathIdSeen(req.id, Suffix(req.op));
    TakeHash(req, Blank(req.op).(cert := req.cert, id := IdSeen(req.id)));
  }

  lemma Assembled(req: Request)
    requires InBounds(req) && OnlyItsFields(req)
    ensures Assemble(Blank(req.op).(cert := req.cert), Path(req), Received(Fields(req))) == Arrives(req)
  {
    if IsBallot(req.op) {
      AssembledBallot(req);
    } else {
      FieldsNulFree(req);
      ShortReceived(Fields(req));
      if req.op.Create? {
        TakeCreate(req);
      } else if IsCheck(req.op) {
        AssembledCheck(req);
      } else if HasPathId(req.op) {
        PathIdSeen(req.id, Suffix(req.op));
      }
    }
  }

  lemma CertFound(cert: string, body: string)
    requires Fits(cert, CERT_LEN)
    ensures H.HeaderGet(CertHeaders(cert) + H.LengthHeader(body), "Cert-Name") == (cert != "", cert)
  {
    var all := CertHeaders(cert) + H.LengthHeader(body);
    if cert != "" {
      assert all[0] == CertHeader(cert);
    } else {
      assert all == H.LengthHeader(body);
      assert |"Cert-Name"| != |"Content-Length"|;
      if body != "" {
        assert all[0] == H.LengthOf(body) && all[1..] == [];
      }
    }
  }

  /** Encoding, the wire and decoding together: the daemon decodes exactly Arrives(req). */
  lemma RequestArrives(req: Request)
    requires InBounds(req) && OnlyItsFields(req) && Encodable(req)
    ensures var heard := H.ReadRequest(H.RequestText(Http(req)));
            heard.Got? && Decode(heard.message) == Arrives(req)
    ensures Arrives(req) == Some(req) <==> Survives(req)
  {
    var http := Http(req);
    var h := http.(headers := H.Sent(http));
    Legal(req);
    CertKept(req.cert);
    R.RequestRoundTrip(http);
    R.LengthLegal(http.body);
    CertFound(req.cert, http.body);
    OpNamed(req.op);
    FieldsNulFree(req);
    BodyReceived(Fields(req));
    Assembled(req);
    SurvivesIsArrives(req);
    assert WithCert(req.op, h.headers) == Blank(req.op).(cert := req.cert);
    assert Decode(h) == Arrives(req);
  }
}
