/** Numbers inside body values: atoi, sscanf's %d, the comma lists and the ballot rows of src/libballotclient/codec.c. */
module WireNumbers {
  import opened Options
  import opened Decimal
  import opened ElectionId
  import opened CodecBody
  import opened CodecFields
  import T = TextLines
  import H = Htttp

  predicate IsInt(n: int) { -0x8000_0000 <= n <= 0x7fff_ffff }

  function Atoi(s: string): int { ToInt32(Strtol(s).0) }

  /** %d: the number and what follows, or a failed conversion. */
  function ScanInt(s: string): Option<(int, string)>
  {
    var (v, rest) := Strtol(s);
    if rest == s then None else Some((ToInt32(v), rest))
  }

  lemma RunIs(digits: string, rest: string)
    requires AllDigits(digits) && (rest == "" || !IsDigit(rest[0]))
    ensures DigitRun(digits + rest) == |digits|
  {
    var s := digits + rest;
    assert s[..|digits|] == digits;
    assert rest != "" ==> s[|digits|] == rest[0];
    RunUnique(s, DigitRun(s), |digits|);
  }

  lemma DigitsRead(digits: string, rest: string)
    requires AllDigits(digits) && digits != "" && Value(digits) <= LONG_MAX && (rest == "" || !IsDigit(rest[0]))
    ensures Strtol(digits + rest) == (Value(digits), rest)
  {
    var s := digits + rest;
    RunIs(digits, rest);
    assert s[0] == digits[0] && IsDigit(s[0]);
    assert s[..|digits|] == digits && s[|digits|..] == rest;
  }

  lemma NegativeRead(s: string, digits: string, rest: string)
    requires AllDigits(digits) && digits != "" && Value(digits) <= LONG_MAX && (rest == "" || !IsDigit(rest[0]))
    requires s == ['-'] + (digits + rest)
    ensures Strtol(s).0 + Value(digits) == 0 && Strtol(s).1 == rest
  {
    var body := digits + rest;
    RunIs(digits, rest);
    assert s[1..] == body && s[0] == '-';
    assert body[..|digits|] == digits && body[|digits|..] == rest;
  }

  /** A printed int followed by anything but a digit is read back whole. */
  lemma IntReads(n: int, rest: string)
    requires IsInt(n) && (rest == "" || !IsDigit(rest[0]))
    ensures Strtol(IntText(n) + rest) == (n, rest)
  {
    if n < 0 {
      MinusRead(n, -n, rest);
    } else {
      NaturalRead(n, rest);
    }
  }

  lemma MinusRead(n: int, m: nat, rest: string)
    requires IsInt(n) && n + m == 0 && n < 0 && (rest == "" || !IsDigit(rest[0]))
    ensures Strtol(IntText(n) + rest) == (n, rest)
  {
    var digits := PrintedDigits(m);
    MinusText(n, m, rest);
    NegativeRead(['-'] + (digits + rest), digits, rest);
  }

  lemma PrintedDigits(m: nat) returns (digits: string)
    ensures digits == Text(m) && digits != "" && AllDigits(digits) && Value(digits) == m
  {
    ReadPrinted(m);
    digits := Text(m);
  }

  lemma NaturalRead(n: nat, rest: string)
    requires IsInt(n) && (rest == "" || !IsDigit(rest[0]))
    ensures Strtol(Text(n) + rest) == (n as int, rest)
  {
    ReadPrinted(n);
    DigitsRead(Text(n), rest);
  }

  lemma MinusText(n: int, m: nat, rest: string)
    requires n < 0 && n + m == 0
    ensures IntText(n) + rest == ['-'] + (Text(m) + rest)
  {
  }

  lemma AtoiReads(n: int, rest: string)
    requires IsInt(n) && (rest == "" || !IsDigit(rest[0]))
    ensures Atoi(IntText(n) + rest) == n && ScanInt(IntText(n) + rest) == Some((n, rest))
  {
    IntReads(n, rest);
    IntShape(n);
    assert |rest| < |IntText(n) + rest|;
  }

  lemma IntShape(n: int)
    ensures IntText(n) != "" && ',' !in IntText(n) && Unbroken(IntText(n)) && NulFree(IntText(n))
  {
    ReadPrinted(if n < 0 then -n else n);
  }

  lemma IntLength(n: int)
    requires IsInt(n)
    ensures |IntText(n)| <= 11
  {
    var m := if n < 0 then -n else n;
    assert Power10(10) == 10_000_000_000;
    PrintedLength(m, Power10(10), 10);
  }

  // ---- comma lists -------------------------------------------------------------

  function IntTexts(ns: seq<int>): (texts: seq<string>)
    ensures |texts| == |ns| && forall k :: 0 <= k < |ns| ==> texts[k] == IntText(ns[k])
  {
    seq(|ns|, k requires 0 <= k < |ns| => IntText(ns[k]))
  }

  function CsvText(ns: seq<int>): string
    requires ns != []
  {
    T.Join(IntTexts(ns), ',')
  }

  /** Where the loop over a tally line reads a number: at the start and after each comma, `room` times at most. */
  function CsvRests(s: string, room: nat): (rests: seq<string>)
    ensures |rests| <= room
    decreases |s|
  {
    if s == "" || room == 0 then []
    else
      var comma := H.IndexOf(s, ',');
      [s] + if comma == |s| then [] else CsvRests(s[comma + 1..], room - 1)
  }

  /** The numbers of a tally line. */
  function CsvNumbers(s: string, room: nat): (ns: seq<int>)
    ensures |ns| <= room
  {
    var rests := CsvRests(s, room);
    seq(|rests|, k requires 0 <= k < |rests| => Atoi(rests[k]))
  }

  /** The array after the numbers were written over its front. */
  function Overlay(tally: seq<int>, ns: seq<int>): (r: seq<int>)
    requires |ns| <= |tally|
    ensures |r| == |tally|
  {
    ns + tally[|ns|..]
  }

  predicate AllInts(ns: seq<int>) { forall i :: 0 <= i < |ns| ==> IsInt(ns[i]) }

  /** The number at the front of a comma list is its first. */
  lemma FirstNumber(n: int, texts: seq<string>)
    requires texts != [] && texts[0] == IntText(n) && IsInt(n)
    ensures Atoi(T.Join(texts, ',')) == n
  {
    var rest := if |texts| == 1 then "" else [','] + T.Join(texts[1..], ',');
    assert T.Join(texts, ',') == IntText(n) + rest;
    AtoiReads(n, rest);
  }

  lemma CommaAt(texts: seq<string>)
    requires texts != [] && T.Free(texts, ',') && texts[0] != ""
    ensures var s := T.Join(texts, ','); var comma := H.IndexOf(s, ',');
            s != "" && if |texts| == 1 then comma == |s| else comma < |s| && s[comma + 1..] == T.Join(texts[1..], ',')
  {
    var s := T.Join(texts, ',');
    if |texts| == 1 {
      H.IndexIs(s, ',', |s|);
    } else {
      H.IndexIs(s, ',', |texts[0]|);
      assert s[|texts[0]| + 1..] == T.Join(texts[1..], ',');
    }
  }

  /** Each rest of a joined list is the join of what is left. */
  ghost predicate AreRests(rests: seq<string>, texts: seq<string>)
  {
    |rests| == |texts| && forall k :: 0 <= k < |texts| ==> rests[k] == T.Join(texts[k..], ',')
  }

  lemma RestsMore(rests: seq<string>, texts: seq<string>)
    requires texts != [] && AreRests(rests, texts[1..])
    ensures AreRests([T.Join(texts, ',')] + rests, texts)
  {
    var all := [T.Join(texts, ',')] + rests;
    forall k | 0 <= k < |texts|
      ensures all[k] == T.Join(texts[k..], ',')
    {
      if k == 0 {
        assert texts[0..] == texts;
      } else {
        assert texts[1..][k - 1..] == texts[k..];
      }
    }
  }

  lemma {:induction false} ListRests(texts: seq<string>, room: nat)
    requires texts != [] && |texts| <= room && T.Free(texts, ',') && "" !in texts
    ensures AreRests(CsvRests(T.Join(texts, ','), room), texts)
    decreases |texts|
  {
    CommaAt(texts);
    if |texts| > 1 {
      ListRests(texts[1..], room - 1);
      RestsMore(CsvRests(T.Join(texts[1..], ','), room - 1), texts);
    } else {
      RestsMore([], texts);
    }
  }

  lemma CsvReads(ns: seq<int>, room: nat)
    requires ns != [] && AllInts(ns) && |ns| <= room
    ensures CsvNumbers(CsvText(ns), room) == ns
  {
    var texts := IntTexts(ns);
    IntTextsPlain(ns);
    ListRests(texts, room);
    var rests := CsvRests(CsvText(ns), room);
    forall k | 0 <= k < |ns|
      ensures Atoi(rests[k]) == ns[k]
    {
      FirstNumber(ns[k], texts[k..]);
    }
  }

  predicate ShortLine(s: string, most: nat) { |s| <= most && Unbroken(s) && NulFree(s) }

  lemma IntTextsPlain(ns: seq<int>)
    requires AllInts(ns)
    ensures T.Free(IntTexts(ns), ',') && "" !in IntTexts(ns)
    ensures forall k :: 0 <= k < |ns| ==> ShortLine(IntTexts(ns)[k], 11)
  {
    forall k | 0 <= k < |ns|
      ensures ',' !in IntTexts(ns)[k] && IntTexts(ns)[k] != "" && ShortLine(IntTexts(ns)[k], 11)
    {
      IntShape(ns[k]);
      IntLength(ns[k]);
    }
  }

  lemma {:induction false} JoinShort(texts: seq<string>, each: nat)
    requires texts != [] && forall k :: 0 <= k < |texts| ==> ShortLine(texts[k], each)
    ensures ShortLine(T.Join(texts, ','), (each + 1) * |texts| - 1)
    decreases |texts|
  {
    if |texts| > 1 {
      JoinShort(texts[1..], each);
    }
  }

  lemma CsvShape(ns: seq<int>)
    requires ns != [] && AllInts(ns)
    ensures |CsvText(ns)| <= 12 * |ns| - 1 && Unbroken(CsvText(ns)) && NulFree(CsvText(ns))
  {
    IntTextsPlain(ns);
    JoinShort(IntTexts(ns), 11);
  }

  // ---- ballot rows ---------------------------------------------------------------

  datatype HashRow = HashRow(hash: string, option: int, version: int, superseded: int)

  function RowText(r: HashRow): string
  {
    r.hash + "," + (IntText(r.option) + "," + (IntText(r.version) + "," + IntText(r.superseded)))
  }

  /** A number that must be followed by a comma. */
  function ScanComma(s: string): Option<(int, string)>
  {
    match ScanInt(s)
    case None => None
    case Some((v, rest)) => if rest == "" || rest[0] != ',' then None else Some((v, rest[1..]))
  }

  /** sscanf "%64[^,],%d,%d,%d" with all four conversions. */
  function ScanRow(s: string): Option<HashRow>
  {
    var n := H.IndexOf(s, ',');
    if n == 0 || n >= HASH_LEN || n == |s| then None
    else
      match ScanComma(s[n + 1..])
      case None => None
      case Some((option, rest)) =>
        match ScanComma(rest)
        case None => None
        case Some((version, last)) =>
          match ScanInt(last)
          case None => None
          case Some((superseded, _)) => Some(HashRow(s[..n], option, version, superseded))
  }

  predicate PlainHash(hash: string) { hash != "" && ',' !in hash }

  predicate RowFits(r: HashRow)
  {
    Fits(r.hash, HASH_LEN) && IsInt(r.option) && IsInt(r.version) && IsInt(r.superseded)
  }

  /** A hash that fills its buffer, or is empty, costs the whole row. */
  lemma LongHashLost(hash: string, rest: string)
    requires ',' !in hash && (hash == "" || |hash| > 64)
    ensures ScanRow(hash + "," + rest) == None
  {
    H.IndexIs(hash + "," + rest, ',', |hash|);
  }

  lemma NoNumber(t: string)
    requires t == "" || !(IsDigit(t[0]) || IsSpace(t[0]) || t[0] == '-' || t[0] == '+')
    ensures ScanInt(t) == None
  {
  }

  lemma NoComma(n: int, t: string)
    requires IsInt(n) && (t == "" || !(IsDigit(t[0]) || t[0] == ','))
    ensures ScanComma(IntText(n) + t) == None
  {
    AtoiReads(n, t);
  }

  /** So does a number that is missing or runs into something else than a comma. */
  lemma BrokenRowLost(hash: string, n: int, t: string)
    requires ',' !in hash && IsInt(n) && (t == "" || !(IsDigit(t[0]) || IsSpace(t[0]) || t[0] in "-+,"))
    ensures ScanRow(hash + "," + t) == None
    ensures ScanRow(hash + "," + (IntText(n) + t)) == None
  {
    NoNumber(t);
    NoComma(n, t);
    AfterHash(hash, t);
    AfterHash(hash, IntText(n) + t);
  }

  lemma AfterHash(hash: string, rest: string)
    requires ',' !in hash
    ensures ScanComma(rest) == None ==> ScanRow(hash + "," + rest) == None
  {
    H.IndexIs(hash + "," + rest, ',', |hash|);
    assert (hash + "," + rest)[|hash| + 1..] == rest;
  }

  lemma CommaReads(n: int, rest: string)
    requires IsInt(n)
    ensures ScanComma(IntText(n) + "," + rest) == Some((n, rest))
  {
    assert IntText(n) + "," + rest == IntText(n) + ("," + rest);
    AtoiReads(n, "," + rest);
    assert ("," + rest)[1..] == rest;
  }


  /** A row is read back exactly when its hash is non-empty and holds no comma. */
  lemma RowReads(r: HashRow)
    requires RowFits(r)
    ensures ScanRow(RowText(r)) == Some(r) <==> PlainHash(r.hash)
  {
    var last := IntText(r.superseded);
    var middle := IntText(r.version) + "," + last;
    var numbers := IntText(r.option) + "," + middle;
    var s := RowText(r);
    assert s == r.hash + "," + numbers;
    if PlainHash(r.hash) {
      H.IndexIs(s, ',', |r.hash|);
      assert s[..|r.hash|] == r.hash && s[|r.hash| + 1..] == numbers;
      CommaReads(r.option, middle);
      CommaReads(r.version, last);
      AtoiReads(r.superseded, "");
      assert last + "" == last;
    } else {
      var n := H.IndexOf(s, ',');
      if ',' in r.hash {
        var k :| 0 <= k < |r.hash| && r.hash[k] == ',';
        assert s[k] == ',';
        assert n <= k < |r.hash|;
      }
    }
  }

  lemma RowShape(r: HashRow)
    requires RowFits(r)
    ensures NulFree(RowText(r)) && (Unbroken(r.hash) ==> Unbroken(RowText(r)))
  {
    IntShape(r.option);
    IntShape(r.version);
    IntShape(r.superseded);
  }

  lemma RowLength(r: HashRow)
    requires RowFits(r)
    ensures |RowText(r)| <= 100
  {
    IntLength(r.option);
    IntLength(r.version);
    IntLength(r.superseded);
  }
}
