/** Why the store refuses texts with a tab, a line feed or a carriage return: what it accepts comes back. */
module StoredText {
  import opened TextLines
  import opened RowReader
  import C = Commands

  /** A field the store accepted: nothing in it shifts a line or a field. */
  predicate AllSafe(row: seq<string>) { forall i :: 0 <= i < |row| ==> !C.Unsafe(row[i]) }

  lemma UnsafeMeans(s: string)
    ensures C.Unsafe(s) <==> '\t' in s || '\n' in s || '\r' in s
  {
    if '\t' in s || '\n' in s || '\r' in s {
      var c :| c in s && (c == '\t' || c == '\n' || c == '\r');
      var i :| 0 <= i < |s| && s[i] == c;
      assert C.Unsafe(s);
    }
  }

  lemma SafeIsFree(row: seq<string>)
    requires AllSafe(row)
    ensures Free(row, '\t') && Free(row, '\n')
  {
    forall i | 0 <= i < |row|
      ensures '\t' !in row[i] && '\n' !in row[i]
    {
      assert !C.Unsafe(row[i]);
    }
  }

  /** Texts the store accepts come back as they were: a printed table of such fields is read back whole. */
  lemma SafeTableReads(t: Table, row: nat)
    requires t.names != [] && Free(t.names, '\n') && Free(t.before, '\n') && Free(t.after, '\n')
    requires forall i :: 0 < i < |t.before| ==> !IsRule(t.before[i])
    requires forall i :: 0 <= i < |t.rows| ==> t.rows[i] != [] && AllSafe(t.rows[i]) && t.rows[i] != [""]
    ensures RowCount(Join(Lines(t), '\n')) == |t.rows|
    ensures row < |t.rows| ==> Split(RowLine(Join(Lines(t), '\n'), row), '\t') == t.rows[row]
  {
    forall i | 0 <= i < |t.rows|
      ensures Free(t.rows[i], '\t') && Free(t.rows[i], '\n')
    {
      SafeIsFree(t.rows[i]);
    }
    TableReads(t, row);
  }
}
