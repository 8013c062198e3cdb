/** The line-structured bodies of src/libballotclient/codec.c: "key=value" lines and hex payloads. */
module CodecBody {
  import opened Options
  import opened Htttp
  import T = TextLines

  const BODY_MAX := 8192
  const KEY_MAX := 64
  const VALUE_MAX := 320

  /** Every key the two decoders compare against. */
  datatype Key =
    | ElectionId | Title | OpenTime | CloseTime | OptionName | Eligible
    | Nonce | Payload | Hash
    | StatusName | StateName | HasPrior | PriorVersion | IssuedAt
    | TallyCount | ResultOption | Tally | HashCount | Row
    | Found | FoundOption | FoundName

  function KeyText(k: Key): string
  {
    match k
    case ElectionId => "election_id"
    case Title => "title"
    case OpenTime => "open_time"
    case CloseTime => "close_time"
    case OptionName => "option"
    case Eligible => "eligible"
    case Nonce => "nonce"
    case Payload => "payload"
    case Hash => "hash"
    case StatusName => "status"
    case StateName => "state"
    case HasPrior => "has_prior_ballot"
    case PriorVersion => "prior_ballot_version"
    case IssuedAt => "issued_at"
    case TallyCount => "tally_count"
    case ResultOption => "result_option"
    case Tally => "tally"
    case HashCount => "hash_count"
    case Row => "row"
    case Found => "found"
    case FoundOption => "found_option"
    case FoundName => "found_option_name"
  }

  /** The key a received name is, if any. */
  function KeyOf(name: string): (k: Option<Key>)
    ensures k.Some? ==> KeyText(k.value) == name
  {
    if name == "election_id" then Some(ElectionId)
    else if name == "title" then Some(Title)
    else if name == "open_time" then Some(OpenTime)
    else if name == "close_time" then Some(CloseTime)
    else if name == "option" then Some(OptionName)
    else if name == "eligible" then Some(Eligible)
    else if name == "nonce" then Some(Nonce)
    else if name == "payload" then Some(Payload)
    else if name == "hash" then Some(Hash)
    else if name == "status" then Some(StatusName)
    else if name == "state" then Some(StateName)
    else if name == "has_prior_ballot" then Some(HasPrior)
    else if name == "prior_ballot_version" then Some(PriorVersion)
    else if name == "issued_at" then Some(IssuedAt)
    else if name == "tally_count" then Some(TallyCount)
    else if name == "result_option" then Some(ResultOption)
    else if name == "tally" then Some(Tally)
    else if name == "hash_count" then Some(HashCount)
    else if name == "row" then Some(Row)
    else if name == "found" then Some(Found)
    else if name == "found_option" then Some(FoundOption)
    else if name == "found_option_name" then Some(FoundName)
    else None
  }

  lemma KeyNamed(k: Key)
    ensures KeyOf(KeyText(k)) == Some(k)
  {
    if k.Row? || k.ResultOption? || k.TallyCount? || k.HashCount? || k.Tally? {
      ResultKeyNamed(k);
    } else if k.Found? || k.FoundOption? || k.FoundName? {
      FoundKeyNamed(k);
    } else if k.HasPrior? || k.PriorVersion? || k.StateName? || k.StatusName? || k.IssuedAt? {
      ReplyKeyNamed(k);
    }
  }

  lemma ResultKeyNamed(k: Key)
    requires k.Row? || k.ResultOption? || k.TallyCount? || k.HashCount? || k.Tally?
    ensures KeyOf(KeyText(k)) == Some(k)
  {
  }

  lemma FoundKeyNamed(k: Key)
    requires k.Found? || k.FoundOption? || k.FoundName?
    ensures KeyOf(KeyText(k)) == Some(k)
  {
  }

  lemma ReplyKeyNamed(k: Key)
    requires k.HasPrior? || k.PriorVersion? || k.StateName? || k.StatusName? || k.IssuedAt?
    ensures KeyOf(KeyText(k)) == Some(k)
  {
  }

  /** Keys as they appear on the wire: short, and of lower-case letters and underscores. */
  predicate PlainKey(k: string) { 0 < |k| < KEY_MAX && forall i :: 0 <= i < |k| ==> '_' <= k[i] <= 'z' }

  lemma KeyIsPlain(k: Key)
    ensures PlainKey(KeyText(k))
  {
    if k.Found? || k.FoundOption? || k.FoundName? || k.Row? || k.ResultOption? || k.TallyCount? || k.HashCount? {
      ResultKeyIsPlain(k);
    } else if k.HasPrior? || k.PriorVersion? || k.StateName? || k.StatusName? || k.IssuedAt? {
      ReplyKeyIsPlain(k);
    }
  }

  lemma ResultKeyIsPlain(k: Key)
    requires k.Found? || k.FoundOption? || k.FoundName? || k.Row? || k.ResultOption? || k.TallyCount? || k.HashCount?
    ensures PlainKey(KeyText(k))
  {
  }

  lemma ReplyKeyIsPlain(k: Key)
    requires k.HasPrior? || k.PriorVersion? || k.StateName? || k.StatusName? || k.IssuedAt?
    ensures PlainKey(KeyText(k))
  {
  }

  // ---- writing ---------------------------------------------------------------

  datatype Pair = Pair(key: string, value: string)

  /** No CR, and no LF before the last character. */
  predicate OneLine(text: string)
  {
    forall i :: 0 <= i < |text| ==> text[i] != '\r' && (text[i] == '\n' ==> i == |text| - 1)
  }

  predicate Unbroken(value: string)
  {
    forall i :: 0 <= i < |value| ==> value[i] != '\r' && value[i] != '\n'
  }

  function FieldText(f: Pair): string { f.key + "=" + f.value + "\n" }

  function FieldsText(fields: seq<Pair>): string
  {
    if fields == [] then "" else FieldText(fields[0]) + FieldsText(fields[1..])
  }

  predicate AllUnbroken(fields: seq<Pair>)
  {
    forall i :: 0 <= i < |fields| ==> Unbroken(fields[i].value)
  }

  predicate AllPlain(fields: seq<Pair>)
  {
    forall i :: 0 <= i < |fields| ==> PlainKey(fields[i].key)
  }

  /** body_append: a text that breaks its line, or does not fit, is refused. */
  method BodyAppend(body: string, text: string) returns (ok: bool, grown: string)
    requires |body| < BODY_MAX
    ensures ok <==> |body| + |text| < BODY_MAX && OneLine(text)
    ensures grown == if ok then body + text else body
  {
    if |text| >= BODY_MAX - |body| {
      return false, body;
    }
    var i := 0;
    while i < |text|
      invariant 0 <= i <= |text|
      invariant forall j :: 0 <= j < i ==> text[j] != '\r' && (text[j] == '\n' ==> j == |text| - 1)
    {
      if text[i] == '\r' || (text[i] == '\n' && i != |text| - 1) {
        return false, body;
      }
      i := i + 1;
    }
    return true, body + text;
  }

  lemma FieldOneLine(f: Pair)
    requires PlainKey(f.key)
    ensures OneLine(FieldText(f)) <==> Unbroken(f.value)
  {
    var text := FieldText(f);
    var from := |f.key| + 1;
    assert forall i :: from <= i < |text| - 1 ==> text[i] == f.value[i - from];
    if OneLine(text) {
      forall i | 0 <= i < |f.value|
        ensures f.value[i] != '\r' && f.value[i] != '\n'
      {
        assert text[from + i] == f.value[i];
      }
    }
  }

  /** One field after another until one is refused. */
  method WriteFields(fields: seq<Pair>) returns (ok: bool, body: string)
    requires AllPlain(fields)
    ensures ok <==> AllUnbroken(fields) && |FieldsText(fields)| < BODY_MAX
    ensures ok ==> body == FieldsText(fields)
  {
    body := "";
    var i := 0;
    assert fields[0..] == fields;
    while i < |fields|
      invariant 0 <= i <= |fields|
      invariant |body| < BODY_MAX
      invariant FieldsText(fields) == body + FieldsText(fields[i..])
      invariant AllUnbroken(fields) <==> AllUnbroken(fields[i..])
    {
      FieldStep(fields, i);
      FieldOneLine(fields[i]);
      Shift(body, FieldText(fields[i]), FieldsText(fields[i + 1..]));
      ok, body := BodyAppend(body, FieldText(fields[i]));
      if !ok {
        return;
      }
      i := i + 1;
    }
    ok := true;
  }

  lemma Shift(done: string, line: string, rest: string)
    ensures done + (line + rest) == (done + line) + rest
  {
  }

  lemma FieldStep(fields: seq<Pair>, i: nat)
    requires i < |fields|
    ensures FieldsText(fields[i..]) == FieldText(fields[i]) + FieldsText(fields[i + 1..])
    ensures AllUnbroken(fields[i..]) <==> Unbroken(fields[i].value) && AllUnbroken(fields[i + 1..])
  {
    assert fields[i..][1..] == fields[i + 1..];
    var now, later := fields[i..], fields[i + 1..];
    assert forall k :: 0 <= k < |later| ==> later[k] == now[k + 1];
    assert now[0] == fields[i];
  }

  // ---- reading ---------------------------------------------------------------

  /** What fits a char array of that size, terminator included. */
  function Cut(s: string, size: nat): (r: string)
    requires size > 0
    ensures |r| < size && (|s| < size ==> r == s)
  {
    if |s| < size then s else s[..size - 1]
  }

  function Unterminated(line: string): string
  {
    if line != "" && line[|line| - 1] == '\r' then line[..|line| - 1] else line
  }

  function PairOf(key: string, value: string): Pair
  {
    Pair(CString(Cut(key, KEY_MAX)), CString(Cut(value, VALUE_MAX)))
  }

  /** The pair a line holds; none without a non-empty key before an '='. */
  function LinePairs(line: string): seq<Pair>
  {
    var text := Unterminated(line);
    var eq := IndexOf(text, '=');
    if 0 < eq < |text| then [PairOf(text[..eq], text[eq + 1..])] else []
  }

  function AllPairs(lines: seq<string>): seq<Pair>
  {
    if lines == [] then [] else LinePairs(lines[0]) + AllPairs(lines[1..])
  }

  function Pairs(body: string): seq<Pair> { AllPairs(T.Split(body, '\n')) }

  method ReadLine(body: string, p: nat, nl: nat) returns (pairs: seq<Pair>)
    requires p <= nl <= |body|
    ensures pairs == LinePairs(body[p..nl])
  {
    var le := nl;
    if le > p && body[le - 1] == '\r' {
      le := le - 1;
    }
    ghost var text := body[p..le];
    assert Unterminated(body[p..nl]) == text;
    var eq := FindChar(body, p, le, '=');
    if p < eq < le {
      assert text[..eq - p] == body[p..eq] && text[eq - p + 1..] == body[eq + 1..le];
      return [PairOf(body[p..eq], body[eq + 1..le])];
    }
    return [];
  }

  /** body_for_each, collecting what it hands to its callback. */
  method BodyPairs(body: string) returns (pairs: seq<Pair>)
    ensures pairs == Pairs(body)
  {
    ghost var g, k := T.PageOf(body, '\n'), 0;
    ghost var whole := AllPairs(g.lines);
    pairs := [];
    var p := 0;
    assert g.lines[0..] == g.lines;
    while p < |body|
      invariant 0 <= p <= |body| && k <= |g.lines| && (k < |g.lines| ==> p == g.starts[k])
      invariant k == |g.lines| ==> p == |body|
      invariant whole == pairs + AllPairs(g.lines[k..])
      decreases |g.lines| - k
    {
      var nl := T.LineAt(body, p, '\n', g, k);
      var found := ReadLine(body, p, nl);
      NextPairs(g.lines, k, pairs);
      pairs := pairs + found;
      p := if nl < |body| then nl + 1 else |body|;
      k := k + 1;
    }
    if k < |g.lines| {
      LastEmpty(g, k);
    }
  }

  lemma NextPairs(lines: seq<string>, k: nat, done: seq<Pair>)
    requires k < |lines|
    ensures done + AllPairs(lines[k..]) == done + LinePairs(lines[k]) + AllPairs(lines[k + 1..])
  {
    assert lines[k..][0] == lines[k] && lines[k..][1..] == lines[k + 1..];
  }

  lemma NoPairs()
    ensures AllPairs([""]) == [] && Pairs("") == []
  {
    assert LinePairs("") == [];
    assert [""][1..] == [];
    assert AllPairs([""]) == LinePairs("") + AllPairs([]);
    IndexIs("", '\n', 0);
  }

  /** A body that ends in a line feed has one more, empty, line. */
  lemma LastEmpty(g: T.Page, k: nat)
    requires T.IsPage(g) && k < |g.lines| && g.starts[k] == |g.body|
    ensures AllPairs(g.lines[k..]) == []
  {
    assert T.LineHere(g, k);
    assert g.lines[k..] == [""];
    NoPairs();
  }

  predicate NulFree(s: string) { forall i :: 0 <= i < |s| ==> s[i] != NUL }

  /** How a field's value arrives: cut at 319 characters. */
  function Arrived(f: Pair): Pair { Pair(f.key, Cut(f.value, VALUE_MAX)) }

  lemma FieldReads(f: Pair, rest: string)
    requires PlainKey(f.key) && Unbroken(f.value) && NulFree(f.value)
    ensures Pairs(FieldText(f) + rest) == [Arrived(f)] + Pairs(rest)
  {
    var line := f.key + "=" + f.value;
    var body := FieldText(f) + rest;
    assert body == line + ['\n'] + rest;
    FirstLine(line, rest);
    LinePairIs(f);
  }

  lemma FirstLine(line: string, rest: string)
    requires '\n' !in line
    ensures Pairs(line + ['\n'] + rest) == LinePairs(line) + Pairs(rest)
  {
    var body := line + ['\n'] + rest;
    IndexIs(body, '\n', |line|);
    assert body[..|line|] == line && body[|line| + 1..] == rest;
    var lines := T.Split(body, '\n');
    assert lines == [line] + T.Split(rest, '\n');
    assert lines[0] == line && lines[1..] == T.Split(rest, '\n');
  }

  lemma LinePairIs(f: Pair)
    requires PlainKey(f.key) && Unbroken(f.value) && NulFree(f.value)
    ensures LinePairs(f.key + "=" + f.value) == [Arrived(f)]
  {
    var line := f.key + "=" + f.value;
    assert f.value != "" ==> line[|line| - 1] == f.value[|f.value| - 1];
    assert Unterminated(line) == line;
    IndexIs(line, '=', |f.key|);
    assert line[..|f.key|] == f.key && line[|f.key| + 1..] == f.value;
    NulFreeIsPlain(f.key);
    NulFreeIsPlain(Cut(f.value, VALUE_MAX));
  }

  lemma NulFreeIsPlain(s: string)
    requires NulFree(s)
    ensures CString(s) == s
  {
    IndexIs(s, NUL, |s|);
  }

  function AllArrived(fields: seq<Pair>): (r: seq<Pair>)
    ensures |r| == |fields|
  {
    if fields == [] then [] else [Arrived(fields[0])] + AllArrived(fields[1..])
  }

  predicate AllNulFree(fields: seq<Pair>)
  {
    forall i :: 0 <= i < |fields| ==> NulFree(fields[i].value)
  }

  /** A written body is read back line for line. */
  lemma {:induction false} FieldsRead(fields: seq<Pair>)
    requires AllPlain(fields) && AllUnbroken(fields) && AllNulFree(fields)
    ensures Pairs(FieldsText(fields)) == AllArrived(fields)
  {
    if fields == [] {
      NoPairs();
    } else {
      FieldReads(fields[0], FieldsText(fields[1..]));
      FieldsRead(fields[1..]);
    }
  }

  // ---- hex -------------------------------------------------------------------

  newtype Byte = x: int | 0 <= x < 256

  function HexDigit(n: int): (c: char)
    requires 0 <= n < 16
    ensures Nibble(c) == n && c != NUL && c != '\r' && c != '\n'
  {
    if n < 10 then ('0' as int + n) as char else ('a' as int + n - 10) as char
  }

  /** hex_nibble; -1 for what is not a hex digit. */
  function Nibble(c: char): int
  {
    if '0' <= c <= '9' then c as int - '0' as int
    else if 'a' <= c <= 'f' then c as int - 'a' as int + 10
    else if 'A' <= c <= 'F' then c as int - 'A' as int + 10
    else -1
  }

  function TwoDigits(b: Byte): string { [HexDigit(b as int / 16), HexDigit(b as int % 16)] }

  function HexText(bytes: seq<Byte>): (s: string)
    ensures |s| == 2 * |bytes|
  {
    if bytes == [] then "" else TwoDigits(bytes[0]) + HexText(bytes[1..])
  }

  /** The byte two digits make. */
  function ByteOf(hi: char, lo: char): Byte
    requires Nibble(hi) >= 0 && Nibble(lo) >= 0
  {
    (16 * Nibble(hi) + Nibble(lo)) as Byte
  }

  /** The bytes hex of either case stands for, if it is hex. */
  function HexRead(s: string): Option<seq<Byte>>
  {
    if s == "" then Some([])
    else if |s| == 1 || Nibble(s[0]) < 0 || Nibble(s[1]) < 0 then None
    else
      match HexRead(s[2..])
      case None => None
      case Some(more) => Some([ByteOf(s[0], s[1])] + more)
  }

  /** Hex is read in either case. */
  lemma {:induction false} EitherCase(s: string, t: string)
    requires SameName(s, t)
    ensures HexRead(s) == HexRead(t)
  {
    if |s| >= 2 {
      NibbleFolds(s[0], t[0]);
      NibbleFolds(s[1], t[1]);
      EitherCase(s[2..], t[2..]);
    }
  }

  lemma NibbleFolds(c: char, d: char)
    requires Lower(c) == Lower(d)
    ensures Nibble(c) == Nibble(d)
  {
  }

  lemma ByteReads(b: Byte)
    ensures ByteOf(TwoDigits(b)[0], TwoDigits(b)[1]) == b
  {
  }

  /** Hex printed is read back. */
  lemma {:induction false} HexRoundTrip(bytes: seq<Byte>)
    ensures HexRead(HexText(bytes)) == Some(bytes)
  {
    if bytes != [] {
      var s := HexText(bytes);
      ByteReads(bytes[0]);
      assert s[0] == TwoDigits(bytes[0])[0] && s[1] == TwoDigits(bytes[0])[1];
      assert s[2..] == HexText(bytes[1..]);
      HexRoundTrip(bytes[1..]);
      assert [bytes[0]] + bytes[1..] == bytes;
    }
  }

  lemma {:induction false} HexUnbroken(bytes: seq<Byte>)
    ensures Unbroken(HexText(bytes)) && NulFree(HexText(bytes))
  {
    if bytes != [] {
      HexUnbroken(bytes[1..]);
    }
  }

  lemma {:induction false} OddUnreadable(s: string)
    ensures |s| % 2 == 1 ==> HexRead(s) == None
    ensures HexRead(s).Some? ==> |s| == 2 * |HexRead(s).value|
  {
    if |s| > 1 {
      OddUnreadable(s[2..]);
    }
  }

  /** hex_encode. */
  method HexEncode(bytes: seq<Byte>, cap: nat) returns (ok: bool, s: string)
    ensures ok <==> 2 * |bytes| < cap
    ensures ok ==> s == HexText(bytes)
  {
    s := "";
    if cap < 2 * |bytes| + 1 {
      return false, "";
    }
    var i := 0;
    assert bytes[0..] == bytes;
    while i < |bytes|
      invariant 0 <= i <= |bytes|
      invariant HexText(bytes) == s + HexText(bytes[i..])
    {
      assert bytes[i..][1..] == bytes[i + 1..];
      Shift(s, TwoDigits(bytes[i]), HexText(bytes[i + 1..]));
      s := s + TwoDigits(bytes[i]);
      i := i + 1;
    }
    ok := true;
  }

  /** The bytes before the first pair that is not hex. */
  function HexPrefix(s: string): (bytes: seq<Byte>)
    ensures 2 * |bytes| <= |s|
  {
    if |s| < 2 || Nibble(s[0]) < 0 || Nibble(s[1]) < 0 then [] else [ByteOf(s[0], s[1])] + HexPrefix(s[2..])
  }

  /** Hex is read exactly when every pair is. */
  lemma {:induction false} PrefixReads(s: string)
    ensures HexRead(s) == if 2 * |HexPrefix(s)| == |s| then Some(HexPrefix(s)) else None
  {
    if |s| >= 2 {
      PrefixReads(s[2..]);
    }
  }

  /** What hex_decode writes to a buffer before it is done or fails. */
  function Written(s: string, cap: nat): (bytes: seq<Byte>)
    ensures |bytes| <= cap
  {
    if |s| % 2 != 0 || |s| / 2 > cap then [] else HexPrefix(s)
  }

  function WrittenOver(top: seq<Byte>, under: seq<Byte>): (bytes: seq<Byte>)
    requires |top| <= |under|
    ensures |bytes| == |under|
  {
    top + under[|top|..]
  }

  lemma {:induction false} PrefixAt(s: string, k: nat)
    requires k <= |HexPrefix(s)| && 2 * k + 1 < |s|
    ensures k < |HexPrefix(s)| <==> Nibble(s[2 * k]) >= 0 && Nibble(s[2 * k + 1]) >= 0
    ensures k < |HexPrefix(s)| ==> HexPrefix(s)[k] == ByteOf(s[2 * k], s[2 * k + 1])
  {
    if k > 0 {
      PrefixAt(s[2..], k - 1);
    }
  }

  /** The loop of hex_decode: it writes up to the first pair that is not hex. */
  method WriteHex(s: string, out: array<Byte>) returns (n: nat)
    requires |s| % 2 == 0 && |s| / 2 <= out.Length
    modifies out
    ensures n == |HexPrefix(s)| && out[..] == WrittenOver(HexPrefix(s), old(out[..]))
  {
    ghost var prefix := HexPrefix(s);
    n := 0;
    while n < |s| / 2
      invariant n <= |prefix|
      invariant forall k :: 0 <= k < n ==> out[k] == prefix[k]
      invariant forall k :: n <= k < out.Length ==> out[k] == old(out[k])
    {
      PrefixAt(s, n);
      if Nibble(s[2 * n]) < 0 || Nibble(s[2 * n + 1]) < 0 {
        break;
      }
      out[n] := ByteOf(s[2 * n], s[2 * n + 1]);
      n := n + 1;
    }
  }

  /** hex_decode: the number of bytes read, or a failure that has overwritten what came before it. */
  method HexDecode(s: string, out: array<Byte>) returns (n: Option<nat>)
    modifies out
    ensures n == if |s| / 2 <= out.Length && HexRead(s).Some? then Some(|HexRead(s).value|) else None
    ensures out[..] == WrittenOver(Written(s, out.Length), old(out[..]))
  {
    PrefixReads(s);
    if |s| % 2 != 0 || |s| / 2 > out.Length {
      return None;
    }
    var k := WriteHex(s, out);
    return if k == |s| / 2 then Some(k) else None;
  }
}
