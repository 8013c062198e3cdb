/**
 * Reading a printed table back: src/libtetrisdb/socket/rows.c against the printer of
 * db/src/java/simpledb/execution/Query.java. A body is the text of a C string.
 */
module RowReader {
  import opened Decimal
  import opened ElectionId
  import opened TextLines
  import H = Htttp

  // ---- the reader, line by line ------------------------------------------------

  predicate IsRule(line: string) { line != "" && forall i :: 0 <= i < |line| ==> line[i] == '-' }

  /** Index of the first rule from i on, or |lines|. */
  function FirstRule(lines: seq<string>, i: nat): (k: nat)
    requires i <= |lines|
    ensures i <= k <= |lines| && (k < |lines| ==> IsRule(lines[k]))
    ensures forall j :: i <= j < k ==> !IsRule(lines[j])
    decreases |lines| - i
  {
    if i == |lines| || IsRule(lines[i]) then i else FirstRule(lines, i + 1)
  }

  function FirstBlank(lines: seq<string>, i: nat): (k: nat)
    requires i <= |lines|
    ensures i <= k <= |lines| && (k < |lines| ==> lines[k] == "")
    ensures forall j :: i <= j < k ==> lines[j] != ""
    decreases |lines| - i
  {
    if i == |lines| || lines[i] == "" then i else FirstBlank(lines, i + 1)
  }

  function SkipSpaces(s: string): string
  {
    if s != "" && s[0] == ' ' then SkipSpaces(s[1..]) else s
  }

  /** The count a trailer announces, if it agrees with the n rows above it. */
  function Announced(trailer: string, n: nat): int
  {
    var t := SkipSpaces(trailer);
    var d := DigitRun(t);
    if d == 0 || !(" rows." <= t[d..]) || Value(t[..d]) != n then -1 else n
  }

  /** block_count: the lines up to the blank one, if the trailer under it agrees. */
  function CountBlock(lines: seq<string>): int
  {
    var b := FirstBlank(lines, 0);
    if b + 1 >= |lines| then -1 else Announced(lines[b + 1], b)
  }

  /** rows_begin: the line under the first rule, which is never the first line. */
  function RowsFrom(lines: seq<string>): nat
    requires lines != []
  {
    FirstRule(lines, 1) + 1
  }

  /** db_row_count. */
  function RowCount(body: string): int
  {
    var lines := Split(body, '\n');
    if RowsFrom(lines) >= |lines| then -1 else CountBlock(lines[RowsFrom(lines)..])
  }

  lemma CountBound(lines: seq<string>)
    ensures CountBlock(lines) < |lines|
    ensures CountBlock(lines) >= 0 ==> CountBlock(lines) == FirstBlank(lines, 0)
  {
  }

  method RuleAt(body: string, p: nat, end: nat) returns (r: bool)
    requires p <= end <= |body|
    ensures r == IsRule(body[p..end])
  {
    if p == end {
      return false;
    }
    var i := p;
    while i < end
      invariant p <= i <= end
      invariant forall j :: p <= j < i ==> body[j] == '-'
    {
      if body[i] != '-' {
        assert body[p..end][i - p] == body[i];
        return false;
      }
      i := i + 1;
    }
    r := true;
  }

  /** rows_begin. */
  method RowsBegin(body: string) returns (found: bool, p: nat)
    ensures var g := PageOf(body, '\n');
            && (found <==> RowsFrom(g.lines) < |g.lines|)
            && (found ==> p == g.starts[RowsFrom(g.lines)])
  {
    ghost var g, k := PageOf(body, '\n'), 0;
    p := 0;
    var end := LineAt(body, p, '\n', g, k);
    var rule := false;
    while end < |body| && !rule
      invariant k < |g.lines| && p == g.starts[k] && end == p + |g.lines[k]| && LineHere(g, k)
      invariant FirstRule(g.lines, 1) == if rule then k else FirstRule(g.lines, k + 1)
      decreases !rule, |g.lines| - k
    {
      p := end + 1;
      k := k + 1;
      end := LineAt(body, p, '\n', g, k);
      rule := RuleAt(body, p, end);
    }
    return rule && end < |body|, end + 1;
  }

  method SkipBlanks(body: string, from: nat, end: nat) returns (t: nat)
    requires from <= end <= |body|
    ensures from <= t <= end && body[t..end] == SkipSpaces(body[from..end])
  {
    t := from;
    while t < end && body[t] == ' '
      invariant from <= t <= end
      invariant SkipSpaces(body[from..end]) == SkipSpaces(body[t..end])
    {
      assert body[t..end][1..] == body[t + 1..end];
      t := t + 1;
    }
  }

  method ReadDigits(text: string) returns (said: nat, d: nat)
    ensures d == DigitRun(text) && said == Value(text[..d])
  {
    said, d := 0, 0;
    while d < |text| && IsDigit(text[d])
      invariant 0 <= d <= |text|
      invariant AllDigits(text[..d]) && said == Value(text[..d])
    {
      assert text[..d + 1][..d] == text[..d];
      said := said * 10 + DigitValue(text[d]);
      d := d + 1;
    }
    RunUnique(text, DigitRun(text), d);
  }

  /** The trailer's blanks, digits and words, within its line. */
  method ReadTrailer(body: string, from: nat, end: nat, n: nat) returns (r: int)
    requires from <= end <= |body|
    ensures r == Announced(body[from..end], n)
  {
    var t := SkipBlanks(body, from, end);
    var said, d := ReadDigits(body[t..end]);
    return if d == 0 || !(" rows." <= body[t..end][d..]) || said != n then -1 else n;
  }

  /** block_count from the first row on. */
  method BlockCount(body: string, rows: nat, ghost g: Page, ghost r: nat) returns (n: int)
    requires IsPage(g) && g.body == body && g.sep == '\n' && r < |g.lines| && rows == g.starts[r]
    ensures n == CountBlock(g.lines[r..])
  {
    var p, k := rows, 0;
    ghost var block := g.lines[r..];
    var end := LineAt(body, p, '\n', g, r);
    while p < end && end < |body|
      invariant k < |block| && p == g.starts[r + k] && end == p + |block[k]| && LineHere(g, r + k)
      invariant FirstBlank(block, 0) == FirstBlank(block, k)
      decreases |block| - k
    {
      p := end + 1;
      k := k + 1;
      end := LineAt(body, p, '\n', g, r + k);
    }
    if p < end || end == |body| {
      return -1;
    }
    var stop := LineAt(body, end + 1, '\n', g, r + k + 1);
    n := ReadTrailer(body, end + 1, stop, k);
  }

  /** db_row_count. */
  method CountRows(body: string) returns (n: int)
    ensures n == RowCount(body)
  {
    var found, p := RowsBegin(body);
    if !found {
      return -1;
    }
    ghost var g := PageOf(body, '\n');
    n := BlockCount(body, p, g, RowsFrom(g.lines));
  }

  // ---- the fields of a row -------------------------------------------------------

  /** The line of a row that is there. */
  function RowLine(body: string, row: nat): string
    requires row < RowCount(body)
  {
    var lines := Split(body, '\n');
    CountBound(lines[RowsFrom(lines)..]);
    lines[RowsFrom(lines) + row]
  }

  /** The first `n` entries point at the first `n` fields inside the body. */
  ghost predicate Points(body: string, at: seq<nat>, len: seq<nat>, fields: seq<string>, n: nat)
  {
    && n <= |at| && n <= |len| && n <= |fields|
    && forall i :: 0 <= i < n ==> at[i] + len[i] <= |body| && body[at[i]..at[i] + len[i]] == fields[i]
  }

  /** Walking down `row` lines. */
  method Walk(body: string, start: nat, row: nat, ghost g: Page, ghost r: nat) returns (p: nat, end: nat)
    requires IsPage(g) && g.body == body && g.sep == '\n' && r + row < |g.lines| && start == g.starts[r]
    ensures p <= end <= |body| && body[p..end] == g.lines[r + row]
  {
    p := start;
    end := LineAt(body, p, '\n', g, r);
    var i := 0;
    while i < row
      invariant 0 <= i <= row && p == g.starts[r + i] && end == p + |g.lines[r + i]| && LineHere(g, r + i)
    {
      p := end + 1;
      end := LineAt(body, p, '\n', g, r + i + 1);
      i := i + 1;
    }
  }

  method FindRow(body: string, row: nat) returns (p: nat, end: nat)
    requires row < RowCount(body)
    ensures p <= end <= |body| && body[p..end] == RowLine(body, row)
  {
    ghost var g := PageOf(body, '\n');
    CountBound(g.lines[RowsFrom(g.lines)..]);
    var found, start := RowsBegin(body);
    p, end := Walk(body, start, row, g, RowsFrom(g.lines));
  }

  method Put(at: array<nat>, len: array<nat>, n: nat, p: nat, width: nat)
    requires at != len && at.Length == len.Length
    modifies at, len
    ensures n < at.Length ==> at[..] == old(at[..])[n := p] && len[..] == old(len[..])[n := width]
    ensures n >= at.Length ==> at[..] == old(at[..]) && len[..] == old(len[..])
  {
    if n < at.Length {
      at[n] := p;
      len[n] := width;
    }
  }

  function Least(a: nat, b: nat): nat { if a < b then a else b }

  /** The same, the entries counted from the start of the line. */
  ghost predicate PointsIn(line: string, base: nat, at: seq<nat>, len: seq<nat>, fields: seq<string>, n: nat)
  {
    forall i :: 0 <= i < n ==> PointsAt(line, base, at, len, fields, i)
  }

  ghost predicate PointsAt(line: string, base: nat, at: seq<nat>, len: seq<nat>, fields: seq<string>, i: nat)
  {
    && i < |at| && i < |len| && i < |fields| && base <= at[i] && at[i] - base + len[i] <= |line|
    && line[at[i] - base..at[i] - base + len[i]] == fields[i]
  }

  lemma PointsInBody(body: string, base: nat, end: nat, at: seq<nat>, len: seq<nat>, fields: seq<string>, n: nat)
    requires base <= end <= |body| && n <= |at| == |len| && n <= |fields|
    requires PointsIn(body[base..end], base, at, len, fields, n)
    ensures Points(body, at, len, fields, n)
  {
    forall i | 0 <= i < n
      ensures at[i] + len[i] <= |body| && body[at[i]..at[i] + len[i]] == fields[i]
    {
      assert PointsAt(body[base..end], base, at, len, fields, i);
      SliceOfSlice(body, base, end, at[i] - base, at[i] - base + len[i]);
    }
  }

  lemma SliceOfSlice(s: string, a: nat, b: nat, i: nat, j: nat)
    requires a <= b <= |s| && i <= j <= b - a
    ensures s[a..b][i..j] == s[a + i..a + j]
  {
    forall k | 0 <= k < j - i
      ensures s[a..b][i..j][k] == s[a + i..a + j][k]
    {
      assert s[a..b][i..j][k] == s[a..b][i + k] == s[a + i + k];
    }
  }

  /** The entries recorded so far are the page's own. */
  ghost predicate Recorded(g: Page, base: nat, at: seq<nat>, len: seq<nat>, n: nat)
  {
    forall i :: 0 <= i < n ==> i < |at| && i < |len| && i < |g.starts| && i < |g.lines|
                               && at[i] == base + g.starts[i] && len[i] == |g.lines[i]|
  }

  lemma RecordedPoints(g: Page, base: nat, at: seq<nat>, len: seq<nat>, n: nat)
    requires IsPage(g) && Recorded(g, base, at, len, n)
    ensures PointsIn(g.body, base, at, len, g.lines, n)
  {
    forall i | 0 <= i < n
      ensures PointsAt(g.body, base, at, len, g.lines, i)
    {
      assert LineHere(g, i);
    }
  }

  /** The tab-separated fields of a line that starts at `base`. */
  method SplitFields(line: string, base: nat, at: array<nat>, len: array<nat>) returns (n: nat)
    requires at != len && at.Length == len.Length
    modifies at, len
    ensures var fields := Split(line, '\t');
            n == |fields| && PointsIn(line, base, at[..], len[..], fields, Least(n, at.Length))
  {
    ghost var g := PageOf(line, '\t');
    n := 0;
    var p, more := 0, true;
    while more
      invariant n <= |g.lines|
      invariant more ==> n < |g.lines| && p == g.starts[n]
      invariant !more ==> n == |g.lines|
      invariant Recorded(g, base, at[..], len[..], Least(n, at.Length))
      decreases |g.lines| - n
    {
      var tab := LineAt(line, p, '\t', g, n);
      Put(at, len, n, base + p, tab - p);
      n := n + 1;
      more := tab < |line|;
      p := tab + 1;
    }
    RecordedPoints(g, base, at[..], len[..], Least(n, at.Length));
  }

  /** db_row_fields: how many fields the row has, and where the first ones that fit are. */
  method RowFields(body: string, row: int, at: array<nat>, len: array<nat>) returns (n: int)
    requires at != len && at.Length == len.Length
    modifies at, len
    ensures !(0 <= row < RowCount(body)) ==> n == -1
    ensures 0 <= row < RowCount(body) ==>
              var fields := Split(RowLine(body, row), '\t');
              n == |fields| && Points(body, at[..], len[..], fields, Least(|fields|, at.Length))
  {
    var count := CountRows(body);
    if count < 0 || row < 0 || row >= count {
      return -1;
    }
    var p, end := FindRow(body, row);
    n := SplitFields(body[p..end], p, at, len);
    PointsInBody(body, p, end, at[..], len[..], Split(body[p..end], '\t'), Least(n, at.Length));
  }

  // ---- what the printer writes ---------------------------------------------------

  /** A select reply: what was printed before it, column names, rows, and what came after. */
  datatype Table = Table(before: seq<string>, names: seq<string>, rows: seq<seq<string>>, after: seq<string>)

  /** Every name with a tab after it. */
  function HeaderLine(names: seq<string>): string
  {
    if names == [] then "" else names[0] + "\t" + HeaderLine(names[1..])
  }

  function Dashes(n: nat): string { seq(n, _ => '-') }

  function RowText(row: seq<string>): string
    requires row != []
  {
    Join(row, '\t')
  }

  function RowLines(rows: seq<seq<string>>): (lines: seq<string>)
    requires forall i :: 0 <= i < |rows| ==> rows[i] != []
    ensures |lines| == |rows| && forall i :: 0 <= i < |rows| ==> lines[i] == RowText(rows[i])
  {
    seq(|rows|, i requires 0 <= i < |rows| => RowText(rows[i]))
  }

  function TrailerLine(n: nat): string { " " + Text(n) + " rows." }

  function Lines(t: Table): seq<string>
    requires forall i :: 0 <= i < |t.rows| ==> t.rows[i] != []
  {
    t.before + [HeaderLine(t.names), Dashes(|HeaderLine(t.names)| + 4 * |t.names|)]
    + RowLines(t.rows) + ["", TrailerLine(|t.rows|)] + t.after
  }

  /** A table of at least one column, printed line by line, with no rule printed above its own. */
  predicate Plain(t: Table)
  {
    && t.names != [] && Free(t.names, '\n') && Free(t.before, '\n') && Free(t.after, '\n')
    && (forall i :: 0 < i < |t.before| ==> !IsRule(t.before[i]))
    && (forall i :: 0 <= i < |t.rows| ==> t.rows[i] != [] && Free(t.rows[i], '\n'))
  }

  /** Some row is a single empty field, which prints as a blank line. */
  predicate HasBlank(rows: seq<seq<string>>)
  {
    exists i :: 0 <= i < |rows| && rows[i] == [""]
  }

  lemma {:induction false} JoinFree(parts: seq<string>, sep: char, c: char)
    requires parts != [] && Free(parts, c) && c != sep
    ensures c !in Join(parts, sep)
    decreases |parts|
  {
    if |parts| > 1 {
      JoinFree(parts[1..], sep, c);
    }
  }

  lemma {:induction false} HeaderShape(names: seq<string>)
    requires Free(names, '\n')
    ensures '\n' !in HeaderLine(names) && !IsRule(HeaderLine(names))
  {
    if names != [] {
      HeaderShape(names[1..]);
      assert HeaderLine(names)[|names[0]|] == '\t';
    }
  }

  lemma RowShape(row: seq<string>)
    requires row != [] && Free(row, '\n')
    ensures '\n' !in RowText(row) && (RowText(row) == "" <==> row == [""])
  {
    JoinFree(row, '\t', '\n');
    if |row| == 1 {
      assert row == [row[0]];
    }
  }

  lemma TrailerShape(n: nat)
    ensures '\n' !in TrailerLine(n) && Announced(TrailerLine(n), n) == n
  {
    ReadPrinted(n);
    var t := Text(n) + " rows.";
    assert TrailerLine(n) == " " + t && TrailerLine(n)[1..] == t;
    assert SkipSpaces(t) == t by {
      assert t[0] == Text(n)[0];
    }
    assert t[|Text(n)|] == ' ' && t[..|Text(n)|] == Text(n) && t[|Text(n)|..] == " rows.";
    RunUnique(t, DigitRun(t), |Text(n)|);
  }

  lemma LinesFree(t: Table)
    requires Plain(t)
    ensures Free(Lines(t), '\n')
  {
    HeaderShape(t.names);
    TrailerShape(|t.rows|);
    forall i | 0 <= i < |t.rows|
      ensures '\n' !in RowLines(t.rows)[i]
    {
      RowShape(t.rows[i]);
    }
  }

  lemma RuleFound(t: Table)
    requires Plain(t)
    ensures FirstRule(Lines(t), 1) == |t.before| + 1
  {
    var lines, k := Lines(t), |t.before| + 1;
    HeaderShape(t.names);
    assert lines[k] == Dashes(|HeaderLine(t.names)| + 4 * |t.names|);
    forall j | 1 <= j < k
      ensures !IsRule(lines[j])
    {
      assert lines[j] == if j < |t.before| then t.before[j] else HeaderLine(t.names);
    }
    RuleIs(lines, 1, k);
  }

  lemma {:induction false} RuleIs(lines: seq<string>, i: nat, k: nat)
    requires i <= k < |lines| && IsRule(lines[k]) && forall j :: i <= j < k ==> !IsRule(lines[j])
    ensures FirstRule(lines, i) == k
  {
  }

  lemma {:induction false} BlankIs(lines: seq<string>, k: nat)
    requires k < |lines| && lines[k] == "" && forall j :: 0 <= j < k ==> lines[j] != ""
    ensures FirstBlank(lines, 0) == k
  {
  }

  /** The rows are counted right exactly when none prints as a blank line. */
  lemma BlockFound(t: Table)
    requires Plain(t)
    ensures CountBlock(Lines(t)[|t.before| + 2..]) == |t.rows| <==> !HasBlank(t.rows)
  {
    var block := RowLines(t.rows) + ["", TrailerLine(|t.rows|)] + t.after;
    assert Lines(t)[|t.before| + 2..] == block;
    forall j | 0 <= j < |t.rows|
      ensures block[j] == RowText(t.rows[j]) && (block[j] == "" <==> t.rows[j] == [""])
    {
      RowShape(t.rows[j]);
    }
    if HasBlank(t.rows) {
      CountBound(block);
      assert FirstBlank(block, 0) < |t.rows|;
    } else {
      BlankIs(block, |t.rows|);
      TrailerShape(|t.rows|);
    }
  }

  lemma PrintedLines(t: Table)
    requires Plain(t)
    ensures Split(Join(Lines(t), '\n'), '\n') == Lines(t)
  {
    LinesFree(t);
    SplitJoin(Lines(t), '\n');
  }

  lemma PrintedRow(t: Table, row: nat)
    requires Plain(t) && row < |t.rows|
    ensures Split(Lines(t)[|t.before| + 2 + row], '\t') == t.rows[row] <==> Free(t.rows[row], '\t')
  {
    assert Lines(t)[|t.before| + 2 + row] == RowLines(t.rows)[row];
    JoinSplit(RowText(t.rows[row]), '\t');
    if Free(t.rows[row], '\t') {
      SplitJoin(t.rows[row], '\t');
    }
  }

  /** A printed table is read back: as many rows as there are exactly when none prints blank, and
      then each row's fields exactly when none of them holds a tab. */
  lemma TableReads(t: Table, row: nat)
    requires Plain(t)
    ensures RowCount(Join(Lines(t), '\n')) == |t.rows| <==> !HasBlank(t.rows)
    ensures !HasBlank(t.rows) && row < |t.rows| ==>
              (Split(RowLine(Join(Lines(t), '\n'), row), '\t') == t.rows[row] <==> Free(t.rows[row], '\t'))
  {
    PrintedLines(t);
    RuleFound(t);
    BlockFound(t);
    if row < |t.rows| {
      PrintedRow(t, row);
    }
  }
}
