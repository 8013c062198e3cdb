/** Responses as HTTTP messages: bcl_encode_response and bcl_decode_response of src/libballotclient/codec.c. */
module ResponseCodec {
  import opened Options
  import opened Decimal
  import opened CodecBody
  import opened CodecFields
  import opened WireNumbers
  import Tables
  import Commands
  import H = Htttp
  import W = HtttpWriter
  import R = HtttpRoundTrip
  import Q = RequestCodec

  type Result = Commands.Result
  type State = Tables.State

  /** The wire name of a result; "" for the retry code, which has none. */
  function ResultText(r: Result): string
  {
    match r
    case Success => "BB_OK"
    case BadTitle => "BB_ERR_CONFIG_TITLE"
    case BadOptions => "BB_ERR_CONFIG_OPTIONS"
    case BadTime => "BB_ERR_CONFIG_TIME"
    case IdTaken => "BB_ERR_CONFIG_ID_TAKEN"
    case IllegalTransition => "BB_ERR_ILLEGAL_TRANSITION"
    case NotOpen => "BB_ERR_NOT_OPEN"
    case AlreadyClosed => "BB_ERR_CLOSED"
    case NotPublished => "BB_ERR_NOT_PUBLISHED"
    case NotEligible => "BB_ERR_NOT_ELIGIBLE"
    case CertInvalid => "BB_ERR_CERT_INVALID"
    case CertExpired => "BB_ERR_CERT_EXPIRED"
    case BadOption => "BB_ERR_BAD_OPTION"
    case Replayed => "BB_ERR_REPLAY"
    case Undecryptable => "BB_ERR_DECRYPT"
    case NotFound => "BB_ERR_NOT_FOUND"
    case NotJoined => "BB_ERR_NOT_JOINED"
    case StoreFailed => "BB_ERR_DB"
    case NotImplemented => "BB_ERR_NOT_IMPLEMENTED"
    case StoreRetry => ""
  }

  /** result_from_name: the table is searched in order, and the retry code is not in it. */
  function ResultOf(name: string): (r: Option<Result>)
    ensures r.Some? ==> ResultText(r.value) == name != ""
  {
    if name == "BB_OK" then Some(Commands.Success)
    else if name == "BB_ERR_CONFIG_TITLE" then Some(Commands.BadTitle)
    else if name == "BB_ERR_CONFIG_OPTIONS" then Some(Commands.BadOptions)
    else if name == "BB_ERR_CONFIG_TIME" then Some(Commands.BadTime)
    else if name == "BB_ERR_CONFIG_ID_TAKEN" then Some(Commands.IdTaken)
    else if name == "BB_ERR_ILLEGAL_TRANSITION" then Some(Commands.IllegalTransition)
    else if name == "BB_ERR_NOT_OPEN" then Some(Commands.NotOpen)
    else if name == "BB_ERR_CLOSED" then Some(Commands.AlreadyClosed)
    else if name == "BB_ERR_NOT_PUBLISHED" then Some(Commands.NotPublished)
    else if name == "BB_ERR_NOT_ELIGIBLE" then Some(Commands.NotEligible)
    else if name == "BB_ERR_CERT_INVALID" then Some(Commands.CertInvalid)
    else if name == "BB_ERR_CERT_EXPIRED" then Some(Commands.CertExpired)
    else if name == "BB_ERR_BAD_OPTION" then Some(Commands.BadOption)
    else if name == "BB_ERR_REPLAY" then Some(Commands.Replayed)
    else if name == "BB_ERR_DECRYPT" then Some(Commands.Undecryptable)
    else if name == "BB_ERR_NOT_FOUND" then Some(Commands.NotFound)
    else if name == "BB_ERR_NOT_JOINED" then Some(Commands.NotJoined)
    else if name == "BB_ERR_DB" then Some(Commands.StoreFailed)
    else if name == "BB_ERR_NOT_IMPLEMENTED" then Some(Commands.NotImplemented)
    else None
  }

  lemma ResultNamed(r: Result)
    requires !r.StoreRetry?
    ensures ResultOf(ResultText(r)) == Some(r) && 0 < |ResultText(r)| <= 25
  {
  }

  lemma ResultPlain(r: Result)
    ensures H.Printable(ResultText(r))
  {
    if r.BadTitle? || r.BadOptions? || r.BadTime? || r.IdTaken? || r.IllegalTransition? || r.NotImplemented? || r.NotEligible? {
      LongNamePlain(r);
    }
  }

  lemma LongNamePlain(r: Result)
    requires r.BadTitle? || r.BadOptions? || r.BadTime? || r.IdTaken? || r.IllegalTransition? || r.NotImplemented? || r.NotEligible?
    ensures H.Printable(ResultText(r))
  {
  }

  function StateText(s: State): string
  {
    match s
    case Draft => "DRAFT"
    case Open => "OPEN"
    case Closed => "CLOSED"
    case Published => "PUBLISHED"
  }

  function StateOf(name: string): Option<State>
  {
    if name == "DRAFT" then Some(Tables.Draft)
    else if name == "OPEN" then Some(Tables.Open)
    else if name == "CLOSED" then Some(Tables.Closed)
    else if name == "PUBLISHED" then Some(Tables.Published)
    else None
  }

  lemma StateNamed(s: State)
    ensures StateOf(StateText(s)) == Some(s) && |StateText(s)| <= 9 && H.Printable(StateText(s))
  {
  }

  /** bcl_response_t: `names` is the election's option list, `options` and `rows` are the entries
      written so far, and the two counts are what the sender claimed. */
  datatype Response = Response(status: Result,
                               id: string, title: string, state: State, openTime: string, closeTime: string,
                               names: seq<string>, hasPrior: int, priorVersion: int,
                               hash: string, issuedAt: string,
                               tally: seq<int>, optionCount: int, options: seq<string>,
                               rows: seq<HashRow>, hashCount: int,
                               found: int, foundOption: int, foundName: string)

  function Zeros(n: nat): seq<int> { seq(n, _ => 0) }

  function Blank(): Response
  {
    Response(Commands.Success, "", "", Tables.Draft, "", "", [], 0, 0, "", "",
             Zeros(MAX_OPTIONS), 0, [], [], 0, 0, 0, "")
  }

  predicate AllRowsFit(rows: seq<HashRow>)
  {
    forall i :: 0 <= i < |rows| ==> RowFits(rows[i])
  }

  /** What the struct can hold, its counts telling how much of its arrays is filled. */
  predicate InBounds(r: Response)
  {
    && Fits(r.id, ID_LEN) && Fits(r.title, TITLE_LEN) && Fits(r.openTime, TIME_LEN) && Fits(r.closeTime, TIME_LEN)
    && |r.names| <= MAX_OPTIONS && AllFit(r.names, OPTION_LEN)
    && Fits(r.hash, HASH_LEN) && Fits(r.issuedAt, TIME_LEN)
    && IsInt(r.hasPrior) && IsInt(r.priorVersion) && IsInt(r.found) && IsInt(r.foundOption)
    && |r.tally| == MAX_OPTIONS && AllInts(r.tally)
    && r.optionCount == |r.options| <= MAX_OPTIONS && AllFit(r.options, OPTION_LEN)
    && r.hashCount == |r.rows| <= MAX_VOTERS && AllRowsFit(r.rows)
    && Fits(r.foundName, OPTION_LEN)
  }

  predicate IsResults(op: Q.Op) { op.Results? || op.AdminResults? }

  // ---- encoding ------------------------------------------------------------------

  function JoinFields(r: Response): seq<Field>
  {
    [Field(ElectionId, r.id), Field(Title, r.title), Field(StateName, StateText(r.state)),
     Field(OpenTime, r.openTime), Field(CloseTime, r.closeTime),
     Field(HasPrior, IntText(r.hasPrior)), Field(PriorVersion, IntText(r.priorVersion))]
    + Named(OptionName, r.names)
  }

  function TallyFields(r: Response): seq<Field>
    requires 0 <= r.optionCount <= |r.tally|
  {
    if r.optionCount == 0 then []
    else [Field(Tally, CsvText(r.tally[..r.optionCount]))] + Named(ResultOption, r.options)
  }

  function RowTexts(rows: seq<HashRow>): (texts: seq<string>)
    ensures |texts| == |rows|
    ensures forall i :: 0 <= i < |rows| ==> texts[i] == RowText(rows[i])
  {
    seq(|rows|, i requires 0 <= i < |rows| => RowText(rows[i]))
  }

  function ResultsFields(r: Response): seq<Field>
    requires 0 <= r.optionCount <= |r.tally|
  {
    [Field(ElectionId, r.id), Field(Title, r.title), Field(TallyCount, IntText(r.optionCount))]
    + TallyFields(r)
    + [Field(HashCount, IntText(r.hashCount))]
    + Named(Row, RowTexts(r.rows))
  }

  /** The lines after status=, by op. */
  function OpFields(op: Q.Op, r: Response): seq<Field>
    requires 0 <= r.optionCount <= |r.tally|
  {
    if op.Create? || op.AdminNextId? then if r.id == "" then [] else [Field(ElectionId, r.id)]
    else if op.Join? then if r.id == "" then [] else JoinFields(r)
    else if Q.IsBallot(op) then if r.hash == "" then [] else [Field(Hash, r.hash), Field(IssuedAt, r.issuedAt)]
    else if IsResults(op) then ResultsFields(r)
    else if Q.IsCheck(op) then
      [Field(Found, IntText(r.found))]
      + if r.found == 0 then [] else [Field(FoundOption, IntText(r.foundOption)), Field(FoundName, r.foundName)]
    else []
  }

  function Fields(op: Q.Op, r: Response): seq<Field>
    requires 0 <= r.optionCount <= |r.tally|
  {
    [Field(StatusName, ResultText(r.status))] + OpFields(op, r)
  }

  function BodyOf(op: Q.Op, r: Response): string
    requires 0 <= r.optionCount <= |r.tally|
  {
    FieldsText(ToPairs(Fields(op, r)))
  }

  // ---- every in-bounds response fits ----------------------------------------------

  /** The length of the lines. */
  function Size(fields: seq<Field>): nat { |FieldsText(ToPairs(fields))| }

  lemma {:induction false} TextJoin(a: seq<Pair>, b: seq<Pair>)
    ensures |FieldsText(a + b)| == |FieldsText(a)| + |FieldsText(b)|
  {
    if a == [] {
      assert a + b == b;
    } else {
      assert (a + b)[1..] == a[1..] + b;
      TextJoin(a[1..], b);
    }
  }

  lemma SizeJoin(a: seq<Field>, b: seq<Field>)
    ensures Size(a + b) == Size(a) + Size(b)
  {
    assert ToPairs(a + b) == ToPairs(a) + ToPairs(b);
    TextJoin(ToPairs(a), ToPairs(b));
  }

  lemma SizeNamed(key: Key, names: seq<string>, width: nat)
    requires forall i :: 0 <= i < |names| ==> |KeyText(key)| + |names[i]| + 2 <= width
    ensures Size(Named(key, names)) <= |names| * width
  {
    TextBound(ToPairs(Named(key, names)), width);
  }

  lemma SizeOne(f: Field)
    ensures Size([f]) == |KeyText(f.key)| + |f.value| + 2
  {
    var pairs := ToPairs([f]);
    assert pairs == [pairs[0]] && pairs[1..] == [];
    assert FieldsText(pairs) == FieldText(pairs[0]) + FieldsText([]);
  }

  lemma Widths()
    ensures |KeyText(StatusName)| == 6 && |KeyText(ElectionId)| == 11 && |KeyText(Title)| == 5
    ensures |KeyText(TallyCount)| == 11 && |KeyText(Tally)| == 5 && |KeyText(ResultOption)| == 13
    ensures |KeyText(HashCount)| == 10 && |KeyText(Row)| == 3 && |KeyText(OptionName)| == 6
  {
  }

  lemma SizeRows(rows: seq<HashRow>)
    requires AllRowsFit(rows) && |rows| <= MAX_VOTERS
    ensures Size(Named(Row, RowTexts(rows))) <= 6720
  {
    Widths();
    forall i | 0 <= i < |rows|
      ensures |KeyText(Row)| + |RowTexts(rows)[i]| + 2 <= 105
    {
      RowLength(rows[i]);
    }
    SizeNamed(Row, RowTexts(rows), 105);
  }

  lemma SizeTally(r: Response)
    requires InBounds(r)
    ensures Size(TallyFields(r)) <= 934
  {
    if r.optionCount > 0 {
      Widths();
      CsvShape(r.tally[..r.optionCount]);
      var line := Field(Tally, CsvText(r.tally[..r.optionCount]));
      SizeOne(line);
      SizeNamed(ResultOption, r.options, 46);
      SizeJoin([line], Named(ResultOption, r.options));
    }
  }

  lemma SizeResults(r: Response)
    requires InBounds(r)
    ensures Size(ResultsFields(r)) <= 7800
  {
    var first := [Field(ElectionId, r.id), Field(Title, r.title), Field(TallyCount, IntText(r.optionCount))];
    var count := [Field(HashCount, IntText(r.hashCount))];
    SizeTally(r);
    SizeRows(r.rows);
    SizeHead(r);
    SizeJoin(first + TallyFields(r) + count, Named(Row, RowTexts(r.rows)));
    SizeJoin(first + TallyFields(r), count);
    SizeJoin(first, TallyFields(r));
  }

  lemma SizeHead(r: Response)
    requires InBounds(r)
    ensures Size([Field(ElectionId, r.id), Field(Title, r.title), Field(TallyCount, IntText(r.optionCount))]) <= 122
    ensures Size([Field(HashCount, IntText(r.hashCount))]) <= 23
  {
    Widths();
    var a, b, c := Field(ElectionId, r.id), Field(Title, r.title), Field(TallyCount, IntText(r.optionCount));
    IntLength(r.optionCount);
    IntLength(r.hashCount);
    assert [a, b, c] == [a] + [b] + [c];
    SizeJoin([a] + [b], [c]);
    SizeJoin([a], [b]);
    SizeOne(a);
    SizeOne(b);
    SizeOne(c);
    SizeOne(Field(HashCount, IntText(r.hashCount)));
  }

  lemma SizeShort(fields: seq<Field>)
    requires forall i :: 0 <= i < |fields| ==> |fields[i].value| <= 64
    ensures Size(fields) <= |fields| * 86
  {
    forall i | 0 <= i < |fields|
      ensures |FieldText(ToPairs(fields)[i])| <= 86
    {
      KeyShort(fields[i].key);
    }
    TextBound(ToPairs(fields), 86);
  }

  lemma SizeOther(op: Q.Op, r: Response)
    requires InBounds(r) && !IsResults(op)
    ensures Size(OpFields(op, r)) <= 23 * 86
  {
    var fields := OpFields(op, r);
    IntLength(r.hasPrior);
    IntLength(r.priorVersion);
    IntLength(r.found);
    IntLength(r.foundOption);
    StateNamed(r.state);
    forall i | 0 <= i < |fields|
      ensures |fields[i].value| <= 64
    {
      if op.Join? && i >= 7 {
        assert fields[i] == Named(OptionName, r.names)[i - 7];
      }
    }
    SizeShort(fields);
  }

  /** Whatever its integers, an in-bounds response never outgrows the encoder's buffer. */
  lemma ResponseFits(op: Q.Op, r: Response)
    requires InBounds(r) && !r.status.StoreRetry?
    ensures |BodyOf(op, r)| < BODY_MAX
  {
    var first := Field(StatusName, ResultText(r.status));
    SizeJoin([first], OpFields(op, r));
    SizeOne(first);
    Widths();
    ResultNamed(r.status);
    if IsResults(op) {
      SizeResults(r);
    } else {
      SizeOther(op, r);
    }
  }

  // ---- decoding ---------------------------------------------------------------------

  /** The struct being filled and whether a known status has come. */
  datatype Draft = Draft(resp: Response, statusValid: bool)

  /** The arrays never grow past their ends. */
  predicate Contained(r: Response)
  {
    |r.tally| == MAX_OPTIONS && |r.names| <= MAX_OPTIONS && |r.options| <= MAX_OPTIONS && |r.rows| <= MAX_VOTERS
  }

  /** One more row, if the line holds one and there is room. */
  function AddRow(rows: seq<HashRow>, text: string): (r: seq<HashRow>)
    requires |rows| <= MAX_VOTERS
    ensures |r| <= MAX_VOTERS && |r| <= |rows| + if ScanRow(text).Some? then 1 else 0
  {
    if |rows| == MAX_VOTERS then rows
    else match ScanRow(text) case None => rows case Some(row) => rows + [row]
  }

  /** response_kv. */
  function Take(d: Draft, f: Field): (d': Draft)
    requires Contained(d.resp)
    ensures Contained(d'.resp)
  {
    var r, v := d.resp, f.value;
    match f.key
    case StatusName =>
      (match ResultOf(v) case None => d case Some(st) => Draft(r.(status := st), true))
    case ElectionId => d.(resp := r.(id := Cut(v, ID_LEN)))
    case Title => d.(resp := r.(title := Cut(v, TITLE_LEN)))
    case StateName => (match StateOf(v) case None => d case Some(st) => d.(resp := r.(state := st)))
    case OpenTime => d.(resp := r.(openTime := Cut(v, TIME_LEN)))
    case CloseTime => d.(resp := r.(closeTime := Cut(v, TIME_LEN)))
    case HasPrior => d.(resp := r.(hasPrior := Atoi(v)))
    case PriorVersion => d.(resp := r.(priorVersion := Atoi(v)))
    case OptionName =>
      if |r.names| < MAX_OPTIONS then d.(resp := r.(names := r.names + [Cut(v, OPTION_LEN)])) else d
    case Hash => d.(resp := r.(hash := Cut(v, HASH_LEN)))
    case IssuedAt => d.(resp := r.(issuedAt := Cut(v, TIME_LEN)))
    case TallyCount => d.(resp := r.(optionCount := Atoi(v)))
    case ResultOption =>
      if |r.options| < MAX_OPTIONS then d.(resp := r.(options := r.options + [Cut(v, OPTION_LEN)])) else d
    case Tally => d.(resp := r.(tally := Overlay(r.tally, CsvNumbers(v, MAX_OPTIONS))))
    case HashCount => d.(resp := r.(hashCount := Atoi(v)))
    case Row => d.(resp := r.(rows := AddRow(r.rows, v)))
    case Found => d.(resp := r.(found := Atoi(v)))
    case FoundOption => d.(resp := r.(foundOption := Atoi(v)))
    case FoundName => d.(resp := r.(foundName := Cut(v, OPTION_LEN)))
    case _ => d
  }

  function TakeAll(d: Draft, fields: seq<Field>): (d': Draft)
    requires Contained(d.resp)
    ensures Contained(d'.resp)
    decreases |fields|
  {
    if fields == [] then d else TakeAll(Take(d, fields[0]), fields[1..])
  }

  /** The counts are cut down to what arrived. */
  function Clamp(r: Response): Response
  {
    r.(hashCount := if r.hashCount < 0 || r.hashCount > |r.rows| then |r.rows| else r.hashCount,
       optionCount := if r.optionCount < 0 || r.optionCount > MAX_OPTIONS then |r.options| else r.optionCount)
  }

  function Start(): (d: Draft)
    ensures Contained(d.resp)
  {
    Draft(Blank(), false)
  }

  function Filled(body: string): Draft { TakeAll(Start(), Known(Pairs(body))) }

  function Decode(h: H.Response): Option<Response>
  {
    var d := Filled(h.body);
    if d.statusValid then Some(Clamp(d.resp)) else None
  }

  /** How many well-formed row lines a body holds. */
  function RowsIn(fields: seq<Field>): nat
  {
    if fields == [] then 0
    else (if fields[0].key.Row? && ScanRow(fields[0].value).Some? then 1 else 0) + RowsIn(fields[1..])
  }

  lemma {:induction false} RowsArrived(d: Draft, fields: seq<Field>)
    requires Contained(d.resp)
    ensures |TakeAll(d, fields).resp.rows| <= |d.resp.rows| + RowsIn(fields)
    decreases |fields|
  {
    if fields != [] {
      RowArrives(d, fields[0]);
      RowsArrived(Take(d, fields[0]), fields[1..]);
    }
  }

  lemma RowArrives(d: Draft, f: Field)
    requires Contained(d.resp)
    ensures |Take(d, f).resp.rows| <= |d.resp.rows| + if f.key.Row? && ScanRow(f.value).Some? then 1 else 0
  {
    match f.key
    case Row => assert Take(d, f).resp.rows == AddRow(d.resp.rows, f.value);
    case _ => assert Take(d, f).resp.rows == d.resp.rows;
  }

  /** Whatever bytes come, the struct announces no entry beyond its arrays nor beyond the rows that came. */
  lemma DecodeBounds(body: string)
    ensures var r := Clamp(Filled(body).resp);
            && Contained(r)
            && 0 <= r.hashCount <= |r.rows| <= RowsIn(Known(Pairs(body)))
            && 0 <= r.optionCount <= MAX_OPTIONS
  {
    RowsArrived(Start(), Known(Pairs(body)));
  }

  /** A claimed count stands unless it exceeds what came; then it is the number that came. */
  lemma CountsCut(r: Response)
    requires Contained(r)
    ensures Clamp(r).hashCount == (if 0 <= r.hashCount <= |r.rows| then r.hashCount else |r.rows|)
    ensures Clamp(r).optionCount == (if 0 <= r.optionCount <= 16 then r.optionCount else |r.options|)
    ensures Clamp(r).(hashCount := r.hashCount, optionCount := r.optionCount) == r
  {
  }

  /** A response without a known status is refused, and a decoded status is one that came. */
  lemma StatusNeeded(h: H.Response)
    requires Decode(h).Some?
    ensures exists f :: && f in Known(Pairs(h.body)) && f.key.StatusName?
                        && ResultOf(f.value) == Some(Decode(h).value.status)
  {
    StatusCame(Start(), Known(Pairs(h.body)));
  }

  lemma {:induction false} StatusCame(d: Draft, fields: seq<Field>)
    requires Contained(d.resp)
    ensures TakeAll(d, fields).statusValid ==>
              || (d.statusValid && TakeAll(d, fields).resp.status == d.resp.status)
              || exists f :: f in fields && f.key.StatusName? && ResultOf(f.value) == Some(TakeAll(d, fields).resp.status)
    decreases |fields|
  {
    if fields != [] {
      var e := Take(d, fields[0]);
      StatusCame(e, fields[1..]);
      if e != d.(resp := e.resp) || e.resp.status != d.resp.status {
        assert fields[0].key.StatusName? && ResultOf(fields[0].value) == Some(e.resp.status);
      }
    }
  }
}
