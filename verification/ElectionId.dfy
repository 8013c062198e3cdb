/**
 Election ids and the number behind them (id_seq in db.c, the arithmetic of bb_alloc_id
 in ballotbrain.c). C's strrchr, strtol and the narrowing casts are written out.
 */
module ElectionId {
  import opened Options
  import opened Decimal
  import opened Tables

  const INT_MAX := 0x7fff_ffff
  const LONG_MAX := 0x7fff_ffff_ffff_ffff
  const FIRST_NUMBER := 100

  /** The cast of a long to a 32-bit int. */
  function ToInt32(v: int): (r: int)
    ensures -0x8000_0000 <= r <= INT_MAX
    ensures -0x8000_0000 <= v <= INT_MAX ==> r == v
  {
    (v + 0x8000_0000) % 0x1_0000_0000 - 0x8000_0000
  }

  lemma CastKeepsLow(v: int)
    ensures (v - ToInt32(v)) % 0x1_0000_0000 == 0
  {
  }

  predicate IsSpace(c: char) { c == ' ' || '\t' <= c <= '\r' }

  predicate IsDigitRun(s: string, n: nat)
  {
    n <= |s| && AllDigits(s[..n]) && (n < |s| ==> !IsDigit(s[n]))
  }

  lemma RunUnique(s: string, m: nat, n: nat)
    requires IsDigitRun(s, m) && IsDigitRun(s, n)
    ensures m == n
  {
    assert forall k :: 0 <= k < m ==> s[..m][k] == s[k];
    assert forall k :: 0 <= k < n ==> s[..n][k] == s[k];
  }

  /** Length of the longest prefix of digits. */
  function DigitRun(s: string): (n: nat)
    ensures IsDigitRun(s, n)
  {
    if s == "" || !IsDigit(s[0]) then
      0
    else
      var n := 1 + DigitRun(s[1..]);
      assert forall i :: 1 <= i < n ==> s[i] == s[1..][..n - 1][i - 1];
      n
  }

  /** strtol in base 10: the value read and what follows it. */
  function Strtol(s: string): (int, string)
  {
    if s != "" && IsSpace(s[0]) then
      var (v, rest) := Strtol(s[1..]);
      // Without a digit anywhere nothing is consumed, not even the spaces.
      if |rest| == |s| - 1 then (0, s) else (v, rest)
    else
      var negative := s != "" && s[0] == '-';
      var body := if s != "" && (s[0] == '-' || s[0] == '+') then s[1..] else s;
      var n := DigitRun(body);
      if n == 0 then
        (0, s)
      else
        var magnitude: int := Value(body[..n]);
        var v: int := if negative then -magnitude else magnitude;
        (if v > LONG_MAX then LONG_MAX else if v < -LONG_MAX - 1 then -LONG_MAX - 1 else v, body[n..])
  }

  /** What follows the last dash, if there is one. */
  function AfterLastDash(id: string): Option<string>
  {
    if id == "" then
      None
    else if id[|id| - 1] == '-' then
      Some("")
    else
      match AfterLastDash(id[..|id| - 1])
      case None => None
      case Some(t) => Some(t + [id[|id| - 1]])
  }

  /** The number an id is filed under: "E-100" is 100, anything unreadable is 0. */
  function IdNumber(id: string): int
  {
    match AfterLastDash(id)
    case None => 0
    case Some(t) =>
      var (v, rest) := Strtol(t);
      if rest != "" || v < 0 then 0 else ToInt32(v)
  }

  /** The number bb_alloc_id takes after reading max(seq). */
  function NextNumber(max: Option<int>): int
  {
    if max.Some? && max.value >= 0 then ToInt32(max.value + 1) else FIRST_NUMBER
  }

  function IdOf(n: int): string { "E-" + IntText(n) }

  lemma {:induction false} LastDash(prefix: string, t: string)
    requires '-' !in t
    ensures AfterLastDash(prefix + "-" + t) == Some(t)
  {
    var id := prefix + "-" + t;
    if t == "" {
    } else {
      var init := t[..|t| - 1];
      LastDash(prefix, init);
      assert id[..|id| - 1] == prefix + "-" + init;
      assert init + [t[|t| - 1]] == t;
    }
  }

  // ---- the number of any id ------------------------------------------------------

  /** White space, perhaps a plus sign, and digits to the end: what strtol takes whole. */
  ghost predicate IsNumeral(t: string, space: string, sign: string, digits: string)
  {
    && t == space + sign + digits && (sign == "" || sign == "+") && digits != "" && AllDigits(digits)
    && forall i :: 0 <= i < |space| ==> space[i] in " \t\n\U{000B}\U{000C}\r"
  }

  /** Digits alone are read whole. */
  lemma StrtolDigits(t: string)
    requires t != "" && AllDigits(t)
    ensures Strtol(t) == (if Value(t) <= LONG_MAX then Value(t) else LONG_MAX, "") && DigitRun(t) == |t|
    ensures t[..|t|] == t && t[|t|..] == ""
  {
    assert !IsSpace(t[0]) && t[0] != '-' && t[0] != '+';
    assert t[..|t|] == t;
    RunUnique(t, DigitRun(t), |t|);
  }

  lemma {:induction false} NumeralReads(t: string, space: string, sign: string, digits: string)
    requires IsNumeral(t, space, sign, digits)
    ensures Strtol(t) == (if Value(digits) <= LONG_MAX then Value(digits) else LONG_MAX, "")
    decreases |space|
  {
    if space == "" {
      StrtolDigits(digits);
      if sign == "+" {
        assert t[0] == '+' && t[1..] == digits;
      } else {
        assert t == digits;
      }
    } else {
      assert t[0] == space[0] && t[1..] == space[1..] + sign + digits;
      NumeralReads(t[1..], space[1..], sign, digits);
    }
  }

  lemma {:induction false} WholeIsNumeral(t: string) returns (space: string, sign: string, digits: string)
    requires t != "" && '-' !in t && Strtol(t).1 == ""
    ensures IsNumeral(t, space, sign, digits)
  {
    if IsSpace(t[0]) {
      space, sign, digits := WholeIsNumeral(t[1..]);
      space := [t[0]] + space;
      assert t == [t[0]] + t[1..];
    } else {
      space, sign := "", if t[0] == '+' then "+" else "";
      digits := if t[0] == '+' then t[1..] else t;
      assert digits[..|digits|] == digits;
    }
  }

  /** An id is filed under the numeral after its last dash, cut to a long and then to 32 bits, and under 0
      if what follows is no numeral or there is no dash. */
  lemma IdNumberMeans(prefix: string, t: string)
    requires '-' !in t
    ensures forall space, sign, digits :: IsNumeral(t, space, sign, digits) ==>
              IdNumber(prefix + "-" + t) == ToInt32(if Value(digits) <= LONG_MAX then Value(digits) else LONG_MAX)
    ensures (forall space, sign, digits :: !IsNumeral(t, space, sign, digits)) ==> IdNumber(prefix + "-" + t) == 0
    ensures IdNumber(t) == 0
  {
    LastDash(prefix, t);
    NoDash(t);
    forall space, sign, digits | IsNumeral(t, space, sign, digits)
      ensures IdNumber(prefix + "-" + t) == ToInt32(if Value(digits) <= LONG_MAX then Value(digits) else LONG_MAX)
    {
      NumeralReads(t, space, sign, digits);
    }
    if t != "" && Strtol(t).1 == "" {
      var space, sign, digits := WholeIsNumeral(t);
    }
  }

  lemma {:induction false} NoDash(t: string)
    requires '-' !in t
    ensures AfterLastDash(t) == None
  {
    if t != "" {
      NoDash(t[..|t| - 1]);
    }
  }

  /** Every allocated id is filed under its own number. */
  lemma NumberOfAllocated(n: nat)
    requires n <= INT_MAX
    ensures IdNumber(IdOf(n)) == n
  {
    ReadPrinted(n);
    var t := Text(n);
    assert IdOf(n) == "E" + "-" + t;
    LastDash("E", t);
    StrtolDigits(t);
  }

  /**
   With every row filed under its id's number, an id allocated from the true maximum is
   not in use, whatever mix of hand-chosen and allocated ids the table holds.
   */
  lemma AllocatedIsNew(d: Db, max: Option<int>)
    requires forall r :: r in d.elections ==> r.number == IdNumber(r.id)
    requires IsMaxNumber(d, max)
    requires max.Some? ==> max.value < INT_MAX
    ensures forall r :: r in d.elections ==> r.id != IdOf(NextNumber(max))
  {
    NumberOfAllocated(NextNumber(max));
  }

  /** `m` is the largest number any election is filed under. */
  ghost predicate IsLargest(d: Db, m: int)
  {
    (exists r :: r in d.elections && r.number == m) && forall r :: r in d.elections ==> r.number <= m
  }

  /** The id the next election gets: E-100 in an empty table, else one past the largest number, which
      wraps past INT_MAX; a table of negative numbers only counts as empty. */
  ghost predicate Allocates(d: Db, id: string)
  {
    && (d.elections == multiset{} ==> id == "E-100")
    && (forall m :: IsLargest(d, m) && m < 0 ==> id == "E-100")
    && (forall m :: IsLargest(d, m) && 0 <= m < INT_MAX ==> id == "E-" + Text(m + 1))
    && (forall m :: IsLargest(d, m) && m == INT_MAX ==> id == "E--" + Text(m + 1))
  }

  lemma FirstId()
    ensures IdOf(FIRST_NUMBER) == "E-100"
  {
    assert Text(100) == Text(10) + "0" == Text(1) + "0" + "0" == "100";
  }

  /** The number taken after reading max(seq) gives that id. */
  lemma AllocatedOverRows(d: Db, max: Option<int>)
    requires IsMaxNumber(d, max)
    ensures Allocates(d, IdOf(NextNumber(max)))
  {
    FirstId();
    forall m | IsLargest(d, m)
      ensures max == Some(m)
    {
      var r :| r in d.elections && r.number == m;
    }
    if max.Some? && 0 <= max.value <= INT_MAX {
      NextIdText(max.value);
    }
  }

  lemma SignedIdText(n: int, m: nat)
    requires n == m || (n < 0 && n + m == 0)
    ensures IdOf(n) == if n == m then "E-" + Text(m) else "E--" + Text(m)
  {
    if n != m {
      assert IntText(n) == "-" + Text(m);
    }
  }

  lemma NextIdText(m: nat)
    requires m <= INT_MAX
    ensures IdOf(NextNumber(Some(m))) == if m < INT_MAX then "E-" + Text(m + 1) else "E--" + Text(m + 1)
  {
    SignedIdText(ToInt32(m + 1), m + 1);
  }

  lemma NumbersBounded(d: Db)
    requires forall r :: r in d.elections ==> r.number == IdNumber(r.id)
    ensures forall r :: r in d.elections ==> r.number <= INT_MAX
  {
  }

  ghost predicate Unused(d: Db, id: string) { forall r :: r in d.elections ==> r.id != id }

  /** The next number leads to a free id: the first one if the store did not answer, and the one the
      32-bit sum wraps to if the largest number is in use. */
  ghost predicate NumbersOk(d: Db, fellBack: bool)
  {
    if fellBack then Unused(d, IdOf(FIRST_NUMBER))
    else (exists r :: r in d.elections && r.number == INT_MAX) ==> Unused(d, IdOf(-INT_MAX - 1))
  }

  lemma NextFree(d: Db, max: Option<int>)
    requires IsMaxNumber(d, max) && forall r :: r in d.elections ==> r.number <= INT_MAX
    requires (max.Some? ==> max.value < INT_MAX) ==> Unused(d, IdOf(NextNumber(max)))
    ensures Unused(d, IdOf(NextNumber(max))) <==> NumbersOk(d, false)
  {
    if max.Some? && max.value == INT_MAX {
      assert NextNumber(max) == -INT_MAX - 1;
    }
  }

  /** An id allocated from an answer is free if and only if the largest number is not in use or the id
      its successor wraps to is free. */
  lemma AllocatedFree(d: Db, max: Option<int>)
    requires forall r :: r in d.elections ==> r.number == IdNumber(r.id)
    requires IsMaxNumber(d, max)
    ensures Unused(d, IdOf(NextNumber(max))) <==> NumbersOk(d, false)
  {
    assert (max.Some? ==> max.value < INT_MAX) ==> Unused(d, IdOf(NextNumber(max))) by {
      if max.Some? ==> max.value < INT_MAX {
        AllocatedIsNew(d, max);
      }
    }
    NumbersBounded(d);
    NextFree(d, max);
  }

  /** bb_alloc_id falls back to the first number when the store does not answer, and that id may be taken. */
  lemma FallbackMayCollide(d: Db)
    requires d.elections == multiset{ElectionRow(100, "E-100", "Budget", Draft, "a", "b")}
    ensures IdNumber("E-100") == 100
    ensures exists r :: r in d.elections && r.id == IdOf(FIRST_NUMBER)
  {
    NumberOfAllocated(100);
    FirstId();
    assert ElectionRow(100, "E-100", "Budget", Draft, "a", "b") in d.elections;
  }
}
