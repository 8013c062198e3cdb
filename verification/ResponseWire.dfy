/** A response from the daemon's struct to the client's: encoding, the wire, decoding (src/libballotclient/codec.c). */
module ResponseWire {
  import opened Options
  import opened Decimal
  import opened CodecBody
  import opened CodecFields
  import opened WireNumbers
  import opened ResponseCodec
  import H = Htttp
  import W = HtttpWriter
  import R = HtttpRoundTrip
  import Q = RequestCodec

  /** bcl_http_status. */
  function HttpStatus(r: Result): int
  {
    match r
    case Success => 200
    case BadTitle | BadOptions | BadTime | BadOption | Undecryptable => 400
    case NotEligible | CertInvalid | CertExpired => 403
    case NotFound => 404
    case IllegalTransition | NotOpen | AlreadyClosed | NotPublished | Replayed | NotJoined | IdTaken => 409
    case StoreFailed | NotImplemented | StoreRetry => 500
  }

  /** 200 is success; 400 a fault of what was sent; 403 of who sent it; 404 a missing thing; 409 the wrong
      moment; and 500 the store or the daemon. */
  lemma StatusClass(r: Result)
    ensures HttpStatus(r) == 200 <==> r.Success?
    ensures HttpStatus(r) == 400 <==> r.BadTitle? || r.BadOptions? || r.BadTime? || r.BadOption? || r.Undecryptable?
    ensures HttpStatus(r) == 403 <==> r.NotEligible? || r.CertInvalid? || r.CertExpired?
    ensures HttpStatus(r) == 404 <==> r.NotFound?
    ensures HttpStatus(r) == 409 <==>
            || r.IllegalTransition? || r.NotOpen? || r.AlreadyClosed? || r.NotPublished?
            || r.Replayed? || r.NotJoined? || r.IdTaken?
    ensures HttpStatus(r) == 500 <==> r.StoreFailed? || r.NotImplemented? || r.StoreRetry?
  {
  }

  lemma StatusHasReason(r: Result)
    ensures H.Reason(HttpStatus(r)) != ""
  {
  }

  predicate Encodable(op: Q.Op, r: Response)
    requires 0 <= r.optionCount <= |r.tally|
  {
    !r.status.StoreRetry? && AllUnbrokenFields(Fields(op, r))
  }

  function Http(op: Q.Op, r: Response): H.Response
    requires 0 <= r.optionCount <= |r.tally|
  {
    H.Response(HttpStatus(r.status), [], BodyOf(op, r))
  }

  /** bcl_encode_response: a retry result has no name and is never sent. */
  method EncodeResponse(op: Q.Op, r: Response, date: string, out: array<char>) returns (ok: bool, len: nat)
    requires InBounds(r)
    modifies out
    ensures len <= out.Length
    ensures ok <==> Encodable(op, r) && |H.ResponseText(Http(op, r), date)| <= out.Length
    ensures ok ==> out[..len] == H.ResponseText(Http(op, r), date)
  {
    len := 0;
    if ResultText(r.status) == "" {
      NoName(r.status);
      return false, 0;
    }
    NoName(r.status);
    ResponseFits(op, r);
    PairsPlain(Fields(op, r));
    var body;
    ok, body := WriteFields(ToPairs(Fields(op, r)));
    if !ok {
      return;
    }
    StatusHasReason(r.status);
    var status;
    status, len := W.SerializeResponse(H.Response(HttpStatus(r.status), [], body), date, out);
    ok := status == H.Fine;
  }

  lemma NoName(r: Result)
    ensures ResultText(r) == "" <==> r.StoreRetry?
  {
  }

  /** response_kv over the lines of a body. */
  method TakeLines(pairs: seq<Pair>) returns (d: Draft)
    ensures d == TakeAll(Start(), Known(pairs))
  {
    d := Start();
    var i := 0;
    ghost var whole := TakeAll(Start(), Known(pairs));
    assert pairs[0..] == pairs;
    while i < |pairs|
      invariant 0 <= i <= |pairs| && Contained(d.resp)
      invariant whole == TakeAll(d, Known(pairs[i..]))
    {
      KnownStep(d, pairs, i);
      var key := KeyOf(pairs[i].key);
      if key.Some? {
        d := Take(d, Field(key.value, pairs[i].value));
      }
      i := i + 1;
    }
  }

  lemma KnownStep(d: Draft, pairs: seq<Pair>, i: nat)
    requires i < |pairs| && Contained(d.resp)
    ensures var k := KeyOf(pairs[i].key);
            var d' := if k.None? then d else Take(d, Field(k.value, pairs[i].value));
            TakeAll(d, Known(pairs[i..])) == TakeAll(d', Known(pairs[i + 1..]))
  {
    assert pairs[i..][1..] == pairs[i + 1..] && pairs[i..][0] == pairs[i];
    var k, later := KeyOf(pairs[i].key), Known(pairs[i + 1..]);
    if k.Some? {
      var now := [Field(k.value, pairs[i].value)] + later;
      assert now[0] == Field(k.value, pairs[i].value) && now[1..] == later;
    }
  }

  /** bcl_decode_response. */
  method DecodeResponse(h: H.Response) returns (r: Option<Response>)
    ensures r == Decode(h)
  {
    var pairs := BodyPairs(h.body);
    var d := TakeLines(pairs);
    return if d.statusValid then Some(Clamp(d.resp)) else None;
  }

  // ---- what arrives -----------------------------------------------------------------

  /** Only what the op sends is filled; a failed request carries nothing but its status. */
  predicate OnlyItsFields(op: Q.Op, r: Response)
  {
    var b := Blank().(status := r.status);
    if op.Create? || op.AdminNextId? then r == b.(id := r.id)
    else if op.Join? then
      if r.id == "" then r == b
      else r == b.(id := r.id, title := r.title, state := r.state, openTime := r.openTime, closeTime := r.closeTime,
                   hasPrior := r.hasPrior, priorVersion := r.priorVersion, names := r.names)
    else if Q.IsBallot(op) then if r.hash == "" then r == b else r == b.(hash := r.hash, issuedAt := r.issuedAt)
    else if IsResults(op) then
      && r == b.(id := r.id, title := r.title, optionCount := r.optionCount, tally := r.tally, options := r.options,
                 hashCount := r.hashCount, rows := r.rows)
      && |r.tally| == MAX_OPTIONS && 0 <= r.optionCount <= MAX_OPTIONS
      && r.tally[r.optionCount..] == Zeros(MAX_OPTIONS)[r.optionCount..]
    else if Q.IsCheck(op) then
      if r.found == 0 then r == b else r == b.(found := r.found, foundOption := r.foundOption, foundName := r.foundName)
    else r == b
  }

  predicate AllPlainHashes(rows: seq<HashRow>)
  {
    forall i :: 0 <= i < |rows| ==> PlainHash(rows[i].hash)
  }

  // ---- folding over pieces -------------------------------------------------------------

  lemma {:induction false} TakeJoin(d: Draft, a: seq<Field>, b: seq<Field>)
    requires Contained(d.resp)
    ensures TakeAll(d, a + b) == TakeAll(TakeAll(d, a), b)
    decreases |a|
  {
    if a == [] {
      assert a + b == b;
    } else {
      assert (a + b)[1..] == a[1..] + b;
      TakeJoin(Take(d, a[0]), a[1..], b);
    }
  }

  lemma TakeOne(d: Draft, f: Field)
    requires Contained(d.resp)
    ensures TakeAll(d, [f]) == Take(d, f)
  {
    assert [f][1..] == [];
    assert TakeAll(Take(d, f), []) == Take(d, f);
  }

  lemma TakeTwo(d: Draft, f: Field, g: Field)
    requires Contained(d.resp)
    ensures TakeAll(d, [f, g]) == Take(Take(d, f), g)
  {
    assert [f, g][1..] == [g];
    TakeOne(Take(d, f), g);
  }

  lemma TakeThree(d: Draft, f: Field, g: Field, h: Field)
    requires Contained(d.resp)
    ensures TakeAll(d, [f, g, h]) == Take(Take(Take(d, f), g), h)
  {
    assert [f, g, h][1..] == [g, h];
    TakeTwo(Take(d, f), g, h);
  }

  lemma {:induction false} TakeNames(d: Draft, names: seq<string>)
    requires Contained(d.resp) && |d.resp.names| + |names| <= MAX_OPTIONS && AllFit(names, OPTION_LEN)
    ensures TakeAll(d, Named(OptionName, names)) == d.(resp := d.resp.(names := d.resp.names + names))
    decreases |names|
  {
    if names == [] {
      assert d.resp.names + names == d.resp.names;
    } else {
      assert Named(OptionName, names)[1..] == Named(OptionName, names[1..]);
      TakeNames(Take(d, Field(OptionName, names[0])), names[1..]);
      assert d.resp.names + [names[0]] + names[1..] == d.resp.names + names;
    }
  }

  lemma {:induction false} TakeOptions(d: Draft, names: seq<string>)
    requires Contained(d.resp) && |d.resp.options| + |names| <= MAX_OPTIONS && AllFit(names, OPTION_LEN)
    ensures TakeAll(d, Named(ResultOption, names)) == d.(resp := d.resp.(options := d.resp.options + names))
    decreases |names|
  {
    if names == [] {
      assert d.resp.options + names == d.resp.options;
    } else {
      assert Named(ResultOption, names)[1..] == Named(ResultOption, names[1..]);
      TakeOptions(Take(d, Field(ResultOption, names[0])), names[1..]);
      assert d.resp.options + [names[0]] + names[1..] == d.resp.options + names;
    }
  }

  /** What one row line adds. */
  function RowFrom(text: string): (rows: seq<HashRow>)
    ensures |rows| <= 1
  {
    match ScanRow(text) case None => [] case Some(row) => [row]
  }

  /** The rows the reader makes of the printed rows. */
  function Scanned(rows: seq<HashRow>): (r: seq<HashRow>)
    ensures |r| <= |rows|
  {
    if rows == [] then [] else RowFrom(RowText(rows[0])) + Scanned(rows[1..])
  }

  lemma TakeRow(d: Draft, text: string)
    requires Contained(d.resp) && |d.resp.rows| < MAX_VOTERS
    ensures Take(d, Field(Row, text)) == d.(resp := d.resp.(rows := d.resp.rows + RowFrom(text)))
  {
    assert AddRow(d.resp.rows, text) == d.resp.rows + RowFrom(text);
  }

  lemma {:induction false} TakeRows(d: Draft, rows: seq<HashRow>)
    requires Contained(d.resp) && |d.resp.rows| + |rows| <= MAX_VOTERS
    ensures TakeAll(d, Named(Row, RowTexts(rows))) == d.(resp := d.resp.(rows := d.resp.rows + Scanned(rows)))
    decreases |rows|
  {
    if rows == [] {
      assert d.resp.rows + Scanned(rows) == d.resp.rows;
    } else {
      var f, one := Field(Row, RowText(rows[0])), RowFrom(RowText(rows[0]));
      RowTail(rows);
      TakeRow(d, RowText(rows[0]));
      TakeRows(Take(d, f), rows[1..]);
      RowsShift(d.resp.rows, one, Scanned(rows[1..]));
    }
  }

  lemma RowsShift(a: seq<HashRow>, b: seq<HashRow>, c: seq<HashRow>)
    ensures a + b + c == a + (b + c)
  {
  }

  lemma RowTail(rows: seq<HashRow>)
    requires rows != []
    ensures var fields := Named(Row, RowTexts(rows));
            fields[0] == Field(Row, RowText(rows[0])) && fields[1..] == Named(Row, RowTexts(rows[1..]))
  {
  }

  /** Rows come back unchanged exactly when every hash is plain. */
  lemma {:induction false} ScannedSame(rows: seq<HashRow>)
    requires AllRowsFit(rows)
    ensures Scanned(rows) == rows <==> AllPlainHashes(rows)
  {
    if rows != [] {
      RowReads(rows[0]);
      ScannedSame(rows[1..]);
      var first := ScanRow(RowText(rows[0]));
      if first.Some? {
        assert RowFrom(RowText(rows[0])) == [first.value];
        assert Scanned(rows)[0] == first.value && Scanned(rows)[1..] == Scanned(rows[1..]);
        if first.value == rows[0] && Scanned(rows[1..]) == rows[1..] {
          assert rows == [rows[0]] + rows[1..];
        }
      }
      PlainSplit(rows);
    }
  }

  lemma PlainSplit(rows: seq<HashRow>)
    requires rows != []
    ensures AllPlainHashes(rows) <==> PlainHash(rows[0].hash) && AllPlainHashes(rows[1..])
  {
    if AllPlainHashes(rows[1..]) {
      assert forall i :: 0 < i < |rows| ==> rows[i] == rows[1..][i - 1];
    }
  }

  // ---- each op's lines, taken back ------------------------------------------------------

  function Said(r: Response): (d: Draft)
    ensures Contained(d.resp)
  {
    Draft(Blank().(status := r.status), true)
  }

  lemma TakeStatus(r: Response)
    requires !r.status.StoreRetry?
    ensures TakeAll(Start(), [Field(StatusName, ResultText(r.status))]) == Said(r)
  {
    ResultNamed(r.status);
    TakeOne(Start(), Field(StatusName, ResultText(r.status)));
  }

  lemma PlainInt(n: int)
    requires IsInt(n)
    ensures Atoi(IntText(n)) == n
  {
    AtoiReads(n, "");
    assert IntText(n) + "" == IntText(n);
  }

  lemma TakeJoinedHead(r: Response)
    requires InBounds(r)
    ensures TakeAll(Said(r), [Field(ElectionId, r.id), Field(Title, r.title), Field(StateName, StateText(r.state))])
         == Draft(Blank().(status := r.status, id := r.id, title := r.title, state := r.state), true)
  {
    StateNamed(r.state);
    TakeThree(Said(r), Field(ElectionId, r.id), Field(Title, r.title), Field(StateName, StateText(r.state)));
  }

  lemma TakePrior(d: Draft, r: Response)
    requires InBounds(r) && Contained(d.resp)
    ensures var e := Take(Take(d, Field(HasPrior, IntText(r.hasPrior))), Field(PriorVersion, IntText(r.priorVersion)));
            e == d.(resp := d.resp.(hasPrior := r.hasPrior, priorVersion := r.priorVersion))
  {
    PlainInt(r.hasPrior);
    PlainInt(r.priorVersion);
  }

  lemma TakeJoinedEnd(d: Draft, r: Response)
    requires InBounds(r) && Contained(d.resp) && d.resp.names == []
    ensures TakeAll(d, [Field(HasPrior, IntText(r.hasPrior)), Field(PriorVersion, IntText(r.priorVersion))]
                       + Named(OptionName, r.names))
         == d.(resp := d.resp.(hasPrior := r.hasPrior, priorVersion := r.priorVersion, names := r.names))
  {
    var g, h := Field(HasPrior, IntText(r.hasPrior)), Field(PriorVersion, IntText(r.priorVersion));
    TakePrior(d, r);
    TakeJoin(d, [g, h], Named(OptionName, r.names));
    TakeTwo(d, g, h);
    TakeNames(Take(Take(d, g), h), r.names);
    assert [] + r.names == r.names;
  }

  lemma TakeJoined(r: Response)
    requires InBounds(r) && r.id != ""
    ensures TakeAll(Said(r), JoinFields(r)).resp
         == Blank().(status := r.status, id := r.id, title := r.title, state := r.state,
                     openTime := r.openTime, closeTime := r.closeTime,
                     hasPrior := r.hasPrior, priorVersion := r.priorVersion, names := r.names)
  {
    var head := [Field(ElectionId, r.id), Field(Title, r.title), Field(StateName, StateText(r.state))];
    var e, f := Field(OpenTime, r.openTime), Field(CloseTime, r.closeTime);
    var end := [Field(HasPrior, IntText(r.hasPrior)), Field(PriorVersion, IntText(r.priorVersion))]
               + Named(OptionName, r.names);
    assert JoinFields(r) == head + ([e, f] + end);
    TakeJoin(Said(r), head, [e, f] + end);
    TakeJoinedHead(r);
    var d := TakeAll(Said(r), head);
    TakeJoin(d, [e, f], end);
    TakeTwo(d, e, f);
    TakeJoinedEnd(Take(Take(d, e), f), r);
  }

  lemma TallyComesBack(ns: seq<int>, tally: seq<int>, start: seq<int>)
    requires ns != [] && AllInts(ns) && |tally| == |start| == MAX_OPTIONS && |ns| <= MAX_OPTIONS
    requires ns == tally[..|ns|] && tally[|ns|..] == start[|ns|..]
    ensures Overlay(start, CsvNumbers(CsvText(ns), MAX_OPTIONS)) == tally
  {
    CsvReads(ns, MAX_OPTIONS);
    assert ns + start[|ns|..] == tally[..|ns|] + tally[|ns|..] == tally;
  }

  lemma TakeTallyLine(d: Draft, line: string)
    requires Contained(d.resp)
    ensures Take(d, Field(Tally, line)) == d.(resp := d.resp.(tally := Overlay(d.resp.tally, CsvNumbers(line, MAX_OPTIONS))))
  {
  }

  lemma TakeTally(d: Draft, r: Response)
    requires InBounds(r) && Contained(d.resp) && d.resp.tally == Zeros(MAX_OPTIONS) && d.resp.options == []
    requires r.tally[r.optionCount..] == Zeros(MAX_OPTIONS)[r.optionCount..]
    ensures TakeAll(d, TallyFields(r)) == d.(resp := d.resp.(tally := r.tally, options := r.options))
  {
    if r.optionCount == 0 {
      assert r.tally == r.tally[0..] == Zeros(MAX_OPTIONS)[0..] == Zeros(MAX_OPTIONS);
    } else {
      var line := Field(Tally, CsvText(r.tally[..r.optionCount]));
      TakeTallyLine(d, line.value);
      TallyComesBack(r.tally[..r.optionCount], r.tally, d.resp.tally);
      TakeJoin(d, [line], Named(ResultOption, r.options));
      TakeOne(d, line);
      TakeOptions(Take(d, line), r.options);
      assert [] + r.options == r.options;
    }
  }

  function ResultsHead(r: Response): seq<Field>
  {
    [Field(ElectionId, r.id), Field(Title, r.title), Field(TallyCount, IntText(r.optionCount))]
  }

  lemma TakeResultsHead(r: Response)
    requires InBounds(r)
    ensures TakeAll(Said(r), ResultsHead(r)).resp
         == Blank().(status := r.status, id := r.id, title := r.title, optionCount := r.optionCount)
  {
    PlainInt(r.optionCount);
    TakeThree(Said(r), Field(ElectionId, r.id), Field(Title, r.title), Field(TallyCount, IntText(r.optionCount)));
  }

  lemma TakeResultsEnd(d: Draft, r: Response)
    requires InBounds(r) && Contained(d.resp) && d.resp.rows == []
    ensures TakeAll(d, ResultsEnd(r))
         == d.(resp := d.resp.(hashCount := r.hashCount, rows := Scanned(r.rows)))
  {
    var count := Field(HashCount, IntText(r.hashCount));
    PlainInt(r.hashCount);
    TakeJoin(d, [count], Named(Row, RowTexts(r.rows)));
    TakeOne(d, count);
    TakeRows(Take(d, count), r.rows);
    assert [] + Scanned(r.rows) == Scanned(r.rows);
  }

  function ResultsEnd(r: Response): seq<Field>
  {
    [Field(HashCount, IntText(r.hashCount))] + Named(Row, RowTexts(r.rows))
  }

  lemma ResultsParts(r: Response)
    requires InBounds(r)
    ensures ResultsFields(r) == ResultsHead(r) + (TallyFields(r) + ResultsEnd(r))
  {
  }

  lemma TakeResults(r: Response)
    requires InBounds(r) && r.tally[r.optionCount..] == Zeros(MAX_OPTIONS)[r.optionCount..]
    ensures TakeAll(Said(r), ResultsFields(r)).resp
         == Blank().(status := r.status, id := r.id, title := r.title, optionCount := r.optionCount, tally := r.tally,
                     options := r.options, hashCount := r.hashCount, rows := Scanned(r.rows))
  {
    ResultsParts(r);
    TakeJoin(Said(r), ResultsHead(r), TallyFields(r) + ResultsEnd(r));
    TakeResultsHead(r);
    var d := TakeAll(Said(r), ResultsHead(r));
    TakeJoin(d, TallyFields(r), ResultsEnd(r));
    TakeTally(d, r);
    TakeResultsEnd(TakeAll(d, TallyFields(r)), r);
  }

  lemma TakeFoundLine(d: Draft, v: string)
    requires Contained(d.resp)
    ensures Take(d, Field(Found, v)) == d.(resp := d.resp.(found := Atoi(v)))
  {
  }

  lemma TakeOptionLine(d: Draft, v: string)
    requires Contained(d.resp)
    ensures Take(d, Field(FoundOption, v)) == d.(resp := d.resp.(foundOption := Atoi(v)))
  {
  }

  lemma TakeNameLine(d: Draft, name: string)
    requires Contained(d.resp)
    ensures Take(d, Field(FoundName, name)) == d.(resp := d.resp.(foundName := Cut(name, OPTION_LEN)))
  {
  }

  lemma TakeFoundMore(d: Draft, v: string, name: string)
    requires Contained(d.resp)
    ensures TakeAll(d, [Field(FoundOption, v), Field(FoundName, name)])
         == d.(resp := d.resp.(foundOption := Atoi(v), foundName := Cut(name, OPTION_LEN)))
  {
    TakeTwo(d, Field(FoundOption, v), Field(FoundName, name));
    TakeOptionLine(d, v);
    TakeNameLine(d.(resp := d.resp.(foundOption := Atoi(v))), name);
  }

  lemma TakeFound(r: Response)
    requires InBounds(r)
    ensures TakeAll(Said(r), OpFields(Q.Check, r)).resp
         == if r.found == 0 then Blank().(status := r.status)
            else Blank().(status := r.status, found := r.found, foundOption := r.foundOption, foundName := r.foundName)
  {
    var a := Field(Found, IntText(r.found));
    var more := if r.found == 0 then [] else [Field(FoundOption, IntText(r.foundOption)), Field(FoundName, r.foundName)];
    PlainInt(r.found);
    PlainInt(r.foundOption);
    TakeJoin(Said(r), [a], more);
    TakeOne(Said(r), a);
    TakeFoundLine(Said(r), IntText(r.found));
    TakeFoundMore(Take(Said(r), a), IntText(r.foundOption), r.foundName);
  }

  /** The responses that arrive as they were sent: all but results with an unplain hash. */
  predicate Survives(op: Q.Op, r: Response)
  {
    IsResults(op) ==> AllPlainHashes(r.rows)
  }

  lemma ClampKeeps(r: Response)
    requires InBounds(r)
    ensures Clamp(r) == r
  {
  }

  lemma TakeReceipt(r: Response)
    requires InBounds(r)
    ensures TakeAll(Said(r), [Field(Hash, r.hash), Field(IssuedAt, r.issuedAt)]).resp
         == Blank().(status := r.status, hash := r.hash, issuedAt := r.issuedAt)
  {
    TakeTwo(Said(r), Field(Hash, r.hash), Field(IssuedAt, r.issuedAt));
  }

  lemma TakeId(r: Response)
    requires InBounds(r)
    ensures TakeAll(Said(r), [Field(ElectionId, r.id)]).resp == Blank().(status := r.status, id := r.id)
  {
    TakeOne(Said(r), Field(ElectionId, r.id));
  }

  lemma OpTaken(op: Q.Op, r: Response)
    requires InBounds(r) && OnlyItsFields(op, r) && !IsResults(op)
    ensures TakeAll(Said(r), OpFields(op, r)).resp == r
  {
    assert TakeAll(Said(r), []) == Said(r);
    if op.Join? {
      if r.id != "" {
        TakeJoined(r);
      }
    } else if Q.IsCheck(op) {
      TakeFound(r);
    } else if Q.IsBallot(op) {
      TakeReceipt(r);
    } else {
      TakeId(r);
    }
  }

  // ---- every value arrives uncut ----------------------------------------------------------

  predicate Whole(fields: seq<Field>)
  {
    forall i :: 0 <= i < |fields| ==> |fields[i].value| < VALUE_MAX && NulFree(fields[i].value)
  }

  lemma PrintableNulFree(s: string)
    requires H.Printable(s)
    ensures NulFree(s)
  {
  }

  lemma WholeNames(key: Key, names: seq<string>)
    requires AllFit(names, OPTION_LEN)
    ensures Whole(Named(key, names))
  {
  }

  lemma WholeRows(rows: seq<HashRow>)
    requires AllRowsFit(rows)
    ensures Whole(Named(Row, RowTexts(rows)))
  {
    forall i | 0 <= i < |rows|
      ensures |RowText(rows[i])| < VALUE_MAX && NulFree(RowText(rows[i]))
    {
      RowShape(rows[i]);
      RowLength(rows[i]);
    }
  }

  lemma WholeInt(key: Key, n: int)
    requires IsInt(n)
    ensures Whole([Field(key, IntText(n))])
  {
    IntShape(n);
    IntLength(n);
  }

  lemma WholeTally(r: Response)
    requires InBounds(r)
    ensures Whole(TallyFields(r))
  {
    if r.optionCount > 0 {
      CsvShape(r.tally[..r.optionCount]);
        WholeNames(ResultOption, r.options);
    }
  }

  lemma WholeBoth(a: seq<Field>, b: seq<Field>)
    requires Whole(a) && Whole(b)
    ensures Whole(a + b)
  {
  }

  lemma WholeJoined(r: Response)
    requires InBounds(r)
    ensures Whole(JoinFields(r))
  {
    StateNamed(r.state);
    PrintableNulFree(StateText(r.state));
    WholeInt(HasPrior, r.hasPrior);
    WholeInt(PriorVersion, r.priorVersion);
    WholeNames(OptionName, r.names);
    var first := [Field(ElectionId, r.id), Field(Title, r.title), Field(StateName, StateText(r.state)),
                  Field(OpenTime, r.openTime), Field(CloseTime, r.closeTime)];
    var prior := [Field(HasPrior, IntText(r.hasPrior))] + [Field(PriorVersion, IntText(r.priorVersion))];
    WholeBoth(first, prior);
    WholeBoth(first + prior, Named(OptionName, r.names));
    assert JoinFields(r) == first + prior + Named(OptionName, r.names);
  }

  lemma WholeResults(r: Response)
    requires InBounds(r)
    ensures Whole(ResultsFields(r))
  {
    WholeInt(TallyCount, r.optionCount);
    WholeInt(HashCount, r.hashCount);
    WholeTally(r);
    WholeRows(r.rows);
    WholeBoth([Field(ElectionId, r.id), Field(Title, r.title)], [Field(TallyCount, IntText(r.optionCount))]);
    assert ResultsHead(r) == [Field(ElectionId, r.id), Field(Title, r.title)] + [Field(TallyCount, IntText(r.optionCount))];
    WholeBoth(ResultsHead(r), TallyFields(r));
    WholeBoth(ResultsHead(r) + TallyFields(r), [Field(HashCount, IntText(r.hashCount))]);
    WholeBoth(ResultsHead(r) + TallyFields(r) + [Field(HashCount, IntText(r.hashCount))], Named(Row, RowTexts(r.rows)));
  }

  lemma WholeFields(op: Q.Op, r: Response)
    requires InBounds(r) && !r.status.StoreRetry?
    ensures Whole(Fields(op, r))
  {
    ResultNamed(r.status);
    ResultPlain(r.status);
    PrintableNulFree(ResultText(r.status));
    if IsResults(op) {
      WholeResults(r);
    } else if op.Join? {
      WholeJoined(r);
    } else if Q.IsCheck(op) {
      WholeInt(Found, r.found);
      WholeInt(FoundOption, r.foundOption);
    }
  }

  // ---- the whole trip -----------------------------------------------------------------------

  lemma FilledBy(op: Q.Op, r: Response)
    requires InBounds(r) && Encodable(op, r)
    ensures Filled(BodyOf(op, r)) == TakeAll(Said(r), OpFields(op, r))
  {
    WholeFields(op, r);
    var fields := Fields(op, r);
    BodyReceived(fields);
    ShortReceived(fields);
    TakeJoin(Start(), [Field(StatusName, ResultText(r.status))], OpFields(op, r));
    TakeStatus(r);
  }

  lemma {:induction false} StatusStays(d: Draft, fields: seq<Field>)
    requires Contained(d.resp) && d.statusValid
    ensures TakeAll(d, fields).statusValid
    decreases |fields|
  {
    if fields != [] {
      StatusKept(d, fields[0]);
      StatusStays(Take(d, fields[0]), fields[1..]);
    }
  }

  lemma StatusKept(d: Draft, f: Field)
    requires Contained(d.resp) && d.statusValid
    ensures Take(d, f).statusValid
  {
  }

  lemma ClampedResults(r: Response, seen: Response)
    requires InBounds(r) && seen == r.(rows := Scanned(r.rows))
    ensures Clamp(seen) == r <==> Scanned(r.rows) == r.rows
  {
    if Scanned(r.rows) == r.rows {
      ClampKeeps(r);
    }
  }

  lemma BodyArrives(op: Q.Op, r: Response)
    requires InBounds(r) && OnlyItsFields(op, r) && Encodable(op, r)
    ensures Filled(BodyOf(op, r)).statusValid
    ensures Clamp(Filled(BodyOf(op, r)).resp) == r <==> Survives(op, r)
  {
    FilledBy(op, r);
    StatusStays(Said(r), OpFields(op, r));
    if IsResults(op) {
      TakeResults(r);
      ScannedSame(r.rows);
      ClampedResults(r, Filled(BodyOf(op, r)).resp);
    } else {
      OpTaken(op, r);
      ClampKeeps(r);
    }
  }

  lemma HttpArrives(op: Q.Op, r: Response, date: string)
    requires InBounds(r) && Encodable(op, r) && R.IsDate(date)
    ensures var heard := H.ReadResponse(H.ResponseText(Http(op, r), date));
            heard.Got? && heard.message.body == BodyOf(op, r)
  {
    var http := Http(op, r);
    ResponseFits(op, r);
    StatusHasReason(r.status);
    R.ResponseRoundTrip(http, date);
  }

  /** The client decodes the response the daemon encoded exactly when every published hash is
      non-empty and comma-free; otherwise a row was lost or misread on the way. */
  lemma ResponseArrives(op: Q.Op, r: Response, date: string)
    requires InBounds(r) && OnlyItsFields(op, r) && Encodable(op, r) && R.IsDate(date)
    ensures var heard := H.ReadResponse(H.ResponseText(Http(op, r), date));
            && heard.Got? && Decode(heard.message).Some?
            && (Decode(heard.message) == Some(r) <==> Survives(op, r))
  {
    HttpArrives(op, r, date);
    BodyArrives(op, r);
  }
}
