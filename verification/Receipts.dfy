/**
 The receipt derivation of crypto.c, and what a receipt shared by two ballots does to the
 store: the derivation folds the nonce to 32 bits, so distinct nonces can share one.
 */
module Receipts {
  import opened Options
  import opened Tables
  import opened Commands
  import opened Brain
  import opened BallotLog
  import opened BallotTally

  const HASH_LEN := 64

  type Word = n: nat | n < 0x1_0000_0000

  function Low32(v: int): Word { v % 0x1_0000_0000 }

  /** h = h * 33 + c over the nonce, from 5381, in unsigned 32-bit arithmetic. */
  function Fold(s: string): Word
  {
    if s == "" then 5381 else Low32(Fold(s[..|s| - 1]) * 33 + s[|s| - 1] as int % 0x100)
  }

  function HexDigit(d: nat): char
  {
    if d % 16 < 10 then ('0' as int + d % 16) as char else ('a' as int + d % 16 - 10) as char
  }

  /** The generator's state after `n` rounds. */
  function Rounds(state: Word, n: nat): Word
    decreases n
  {
    if n == 0 then state else Low32(Rounds(state, n - 1) * 1103515245 + 12345)
  }

  /** Bitwise exclusive or. */
  function Xor(a: nat, b: nat): nat
    decreases a + b
  {
    if a == 0 && b == 0 then 0 else (a + b) % 2 + 2 * Xor(a / 2, b / 2)
  }

  function Seed(nonce: string, version: int): Word { Low32(Xor(Fold(nonce), Low32(version * 2246822519))) }

  /** bb_issue_receipt. */
  function Issue(nonce: string, version: int): string
  {
    var start := Low32(Seed(nonce, version) * 2654435761 + 1);
    seq(HASH_LEN, i requires i >= 0 => HexDigit(Rounds(start, i + 1) / 0x1_0000))
  }

  lemma SameFold()
    ensures Fold("aB") == Fold("b!")
  {
    assert "a"[..0] == "" && "b"[..0] == "";
    assert Fold("a") == 177670 && Fold("b") == 177671;
    assert "aB"[..1] == "a" && "b!"[..1] == "b";
  }

  lemma SeedDecides(n1: string, n2: string, version: int)
    requires Fold(n1) == Fold(n2)
    ensures Issue(n1, version) == Issue(n2, version)
  {
  }

  lemma XorHalves(a: nat, b: nat)
    ensures Xor(a, b) / 2 == Xor(a / 2, b / 2) && Xor(a, b) % 2 == (a + b) % 2
  {
  }

  lemma SameHalves(a: nat, b: nat)
    requires a / 2 == b / 2 && a % 2 == b % 2
    ensures a == b
  {
  }

  lemma {:induction false} XorZero(a: nat)
    ensures Xor(a, 0) == a
  {
    if a != 0 {
      XorZero(a / 2);
      XorHalves(a, 0);
    }
  }

  /** Exclusive or undoes itself. */
  lemma {:induction false} XorUndoes(a: nat, b: nat)
    ensures Xor(Xor(a, b), b) == a
    decreases a + b
  {
    if a != 0 || b != 0 {
      var x := Xor(a, b);
      XorUndoes(a / 2, b / 2);
      XorHalves(a, b);
      XorHalves(x, b);
      assert (x + b) % 2 == a % 2 by { Parity(a, b, x); }
      SameHalves(Xor(x, b), a);
    }
  }

  lemma Parity(a: nat, b: nat, x: nat)
    requires x % 2 == (a + b) % 2
    ensures (x + b) % 2 == a % 2
  {
  }

  lemma {:induction false} XorBelow(a: nat, b: nat, top: nat)
    requires a < Power2(top) && b < Power2(top)
    ensures Xor(a, b) < Power2(top)
    decreases top
  {
    if top > 0 {
      XorBelow(a / 2, b / 2, top - 1);
    }
  }

  function Power2(n: nat): (p: nat)
    ensures p > 0
  {
    if n == 0 then 1 else 2 * Power2(n - 1)
  }

  lemma WordXor(a: Word, b: Word)
    ensures Xor(a, b) < 0x1_0000_0000
  {
    Power32();
    XorBelow(a, b, 32);
  }

  lemma Power32()
    ensures Power2(32) == 0x1_0000_0000
  {
    assert Power2(8) == 0x100;
    assert Power2(16) == 0x1_0000;
    assert Power2(24) == 0x100_0000;
  }

  lemma SmallLow(w: Word)
    ensures Low32(w) == w
  {
  }

  lemma WordUndoes(f: Word, v: Word)
    ensures Xor(Low32(Xor(f, v)), f) == v
  {
    var x := Xor(v, f);
    XorUndoes(v, f);
    XorSwaps(f, v);
    WordXor(v, f);
    assert Low32(x) == x by { SmallLow(x); }
  }

  /** A ballot's seed and its nonce give back what its version contributed. */
  lemma SeedMeans(nonce: string, version: int)
    ensures Xor(Seed(nonce, version), Fold(nonce)) == version * 2246822519 % 0x1_0000_0000
    ensures Seed(nonce, 0) == Fold(nonce)
  {
    WordUndoes(Fold(nonce), Low32(version * 2246822519));
    XorZero(Fold(nonce));
  }

  lemma {:induction false} XorSwaps(a: nat, b: nat)
    ensures Xor(a, b) == Xor(b, a)
    decreases a + b
  {
    if a != 0 || b != 0 {
      XorSwaps(a / 2, b / 2);
    }
  }

  lemma KnownRounds(start: Word)
    requires start == 422752295
    ensures Rounds(start, 1) == 1365971668 && Rounds(start, 2) == 2924203133
  {
    assert Rounds(start, 0) == start;
    assert Rounds(start, 1) == Low32(start * 1103515245 + 12345);
    assert Rounds(start, 2) == Low32(1365971668 * 1103515245 + 12345);
  }

  lemma KnownDigits(nonce: string, version: int)
    requires Seed(nonce, version) == 177670
    ensures |Issue(nonce, version)| == 64 && Issue(nonce, version)[0] == Issue(nonce, version)[1] == 'b'
  {
    var start := Low32(Seed(nonce, version) * 2654435761 + 1);
    KnownRounds(start);
    assert Issue(nonce, version)[0] == HexDigit(Rounds(start, 1) / 0x1_0000);
    assert Issue(nonce, version)[1] == HexDigit(Rounds(start, 2) / 0x1_0000);
  }

  /** The start of one receipt, worked out. */
  lemma KnownReceipt()
    ensures |Issue("a", 0)| == 64 && Issue("a", 0)[0] == Issue("a", 0)[1] == 'b'
  {
    assert "a"[..0] == "" && Fold("a") == 177670;
    SeedMeans("a", 0);
    KnownDigits("a", 0);
  }

  lemma LowOfLow(v: int)
    ensures Low32(v) % 0x10_0000 == v % 0x10_0000
  {
    var q := v / 0x1_0000_0000;
    assert v == Low32(v) + 0x10_0000 * (0x1000 * q);
  }

  /** One multiplication and addition keeps agreement in the low 20 bits. */
  lemma NextLow(a: Word, b: Word, times: nat, plus: nat)
    requires a % 0x10_0000 == b % 0x10_0000
    ensures Low32(a * times + plus) % 0x10_0000 == Low32(b * times + plus) % 0x10_0000
  {
    var q := a / 0x10_0000 - b / 0x10_0000;
    LowOfLow(a * times + plus);
    LowOfLow(b * times + plus);
    assert a == b + 0x10_0000 * q;
    assert (b + 0x10_0000 * q) * times == b * times + 0x10_0000 * (q * times);
    Apart(b * times + plus, q * times);
  }

  lemma Apart(v: int, q: int)
    ensures (v + 0x10_0000 * q) % 0x10_0000 == v % 0x10_0000
  {
  }

  lemma {:induction false} LowRounds(a: Word, b: Word, n: nat)
    requires a % 0x10_0000 == b % 0x10_0000
    ensures Rounds(a, n) % 0x10_0000 == Rounds(b, n) % 0x10_0000
    decreases n
  {
    if n > 0 {
      LowRounds(a, b, n - 1);
      NextLow(Rounds(a, n - 1), Rounds(b, n - 1), 1103515245, 12345);
    }
  }

  /** The digits of a receipt are bits 16 to 19 of the rounds, so the low 20 bits of the seed decide all 64
      of them: there are at most 2^20 receipts. */
  lemma LowBitsDecide(n1: string, v1: int, n2: string, v2: int)
    requires Seed(n1, v1) % 0x10_0000 == Seed(n2, v2) % 0x10_0000
    ensures Issue(n1, v1) == Issue(n2, v2) && |Issue(n1, v1)| == 64
  {
    var a, b := Low32(Seed(n1, v1) * 2654435761 + 1), Low32(Seed(n2, v2) * 2654435761 + 1);
    NextLow(Seed(n1, v1), Seed(n2, v2), 2654435761, 1);
    forall i | 0 <= i < HASH_LEN
      ensures Issue(n1, v1)[i] == Issue(n2, v2)[i]
    {
      LowRounds(a, b, i + 1);
      SameDigit(Rounds(a, i + 1), Rounds(b, i + 1));
    }
  }

  lemma DigitBits(a: nat)
    ensures a / 0x1_0000 % 16 == a % 0x10_0000 / 0x1_0000
  {
    var q, r := a / 0x10_0000, a % 0x10_0000;
    var h := r / 0x1_0000;
    assert a == 0x1_0000 * (16 * q + h) + r % 0x1_0000;
    assert a / 0x1_0000 == 16 * q + h;
  }

  lemma SameDigit(a: Word, b: Word)
    requires a % 0x10_0000 == b % 0x10_0000
    ensures HexDigit(a / 0x1_0000) == HexDigit(b / 0x1_0000)
  {
    DigitBits(a);
    DigitBits(b);
  }

  /** Two different nonces whose receipts are the same at every version. */
  lemma SameReceipt(version: int)
    ensures "aB" != "b!" && Issue("aB", version) == Issue("b!", version)
  {
    SameFold();
    SeedDecides("aB", "b!", version);
    assert "aB"[0] != "b!"[0];
  }

  function TwoVotes(issue: (string, int) -> string, n1: string, n2: string): seq<Vote>
  {
    [Vote("E-1", "ann", 0, issue(n1, 1), n1), Vote("E-1", "bob", 1, issue(n2, 1), n2)]
  }

  /**
   Two voters whose receipts collide, and then the first one votes again: the second voter's
   ballot vanishes from the tally although that voter is still a supporter.
   */
  lemma {:induction false} SharedReceiptLosesVote(issue: (string, int) -> string, n1: string, n2: string, d: Db,
                                                  third: string, prior: OwnerRow, replaced: BallotRow)
    requires issue(n1, 1) == issue(n2, 1) && Holds(TwoVotes(issue, n1, n2), d)
    requires FindsOwner(d, "E-1", "ann", Some(prior))
    requires replaced in d.ballots && HashIs("E-1", prior.hash)(replaced)
    ensures var b := Ballot("ann", third, [2]);
            var hash := issue(third, NewVersion(Some(prior)));
            var d' := AfterBallot(d, "E-1", b, hash, Some(prior), replaced);
            && |Filter(d'.ballots, LiveFor("E-1", 1))| == 0
            && Supporters(TwoVotes(issue, n1, n2) + [VoteOf("E-1", b, hash)], "E-1", 1) == {"bob"}
  {
    var log := TwoVotes(issue, n1, n2);
    var b := Ballot("ann", third, [2]);
    var hash := issue(third, NewVersion(Some(prior)));
    OwnerMeans(log, prior);
    GoneFromTally(log, d, "E-1", b, hash, prior, replaced, 1);
    BobSupports(log, VoteOf("E-1", b, hash));
  }

  // ---- the loss, with the receipts of the code and a request the daemon accepts

  const NAMES := ["x", "y", "z"]
  const VOTERS := ["ann", "bob"]

  function OpenElection(): Election
  {
    Election("E-1", "Budget", Open, "a", "b", NAMES + seq(MAX_OPTIONS - |NAMES|, _ => ""), |NAMES|, VOTERS)
  }

  /** One open election with three options and two voters, and the rows of a log. */
  ghost function TablesOf(log: seq<Vote>): Db
  {
    Db(multiset{ElectionRow(1, "E-1", "Budget", Open, "a", "b")}, multiset(OptionRowsOf("E-1", NAMES)),
       multiset(EligibleRowsOf("E-1", VOTERS)), multiset(Rows(log)), multiset(Owners(log)), multiset(Nonces(log)))
  }

  lemma OptionsStored(d: Db)
    requires d.options == multiset(OptionRowsOf("E-1", NAMES))
    ensures AreOptions(d, "E-1", OpenElection().options, OpenElection().optionCount)
  {
    var rows := OptionRowsOf("E-1", NAMES);
    assert Filter(d.options, OptionOf("E-1")) == multiset(rows);
    assert |multiset(rows)| == |rows|;
    forall i | 0 <= i < MAX_OPTIONS
      ensures HoldsOption(d, "E-1", i, OpenElection().options[i])
    {
      if i < |NAMES| {
        assert rows[i] in rows;
      }
    }
  }

  lemma VotersStored(d: Db)
    requires d.eligible == multiset(EligibleRowsOf("E-1", VOTERS))
    ensures AreEligible(d, "E-1", VOTERS)
  {
    var rows := EligibleRowsOf("E-1", VOTERS);
    assert Filter(d.eligible, EligibleFor("E-1")) == multiset(rows);
    assert |multiset(rows)| == |rows|;
    forall c | c in VOTERS
      ensures EligibleRow("E-1", c) in d.eligible
    {
      var i :| 0 <= i < |VOTERS| && VOTERS[i] == c;
      assert rows[i] in rows;
    }
  }

  lemma ElectionStored(log: seq<Vote>)
    ensures IsElection(TablesOf(log), "E-1", OpenElection())
  {
    var d := TablesOf(log);
    OptionsStored(d);
    VotersStored(d);
    assert ElectionRow(1, "E-1", "Budget", Open, "a", "b") in d.elections;
  }

  lemma NonceUnseen(log: seq<Vote>, nonce: string)
    requires forall j :: 0 <= j < |log| ==> log[j].nonce != nonce
    ensures NonceRow("E-1", nonce) !in TablesOf(log).nonces
  {
    var rows := Nonces(log);
    if NonceRow("E-1", nonce) in multiset(rows) {
      assert NonceRow("E-1", nonce) in rows;
    }
  }

  /** Ann's second ballot is recorded. */
  lemma {:induction false} AnnRecorded(issue: (string, int) -> string, log: seq<Vote>, b: Ballot, hash: string)
    requires |log| == 2 && By(log[0], "E-1", "ann") && By(log[1], "E-1", "bob")
    requires b.cert == "ann" && Choice(b) == 2 && hash == issue(b.nonce, NewVersion(Some(OwnerOf(log, 0))))
    requires forall j :: 0 <= j < |log| ==> log[j].nonce != b.nonce
    ensures FindsOwner(TablesOf(log), "E-1", "ann", Some(OwnerOf(log, 0))) && RowOf(log, 0) in TablesOf(log).ballots
    ensures var d' := AfterBallot(TablesOf(log), "E-1", b, hash, Some(OwnerOf(log, 0)), RowOf(log, 0));
            Recorded(issue, TablesOf(log), d', "E-1", b, hash)
  {
    var d, prior, replaced := TablesOf(log), OwnerOf(log, 0), RowOf(log, 0);
    assert !HasLater(log, 0);
    assert prior in Owners(log) && Rows(log)[0] in Rows(log);
    ElectionStored(log);
    NonceUnseen(log, b.nonce);
    assert "ann" == VOTERS[0];
    assert Gate(OpenElection(), false, b) == Success;
    assert RecordedBy(issue, d, AfterBallot(d, "E-1", b, hash, Some(prior), replaced), "E-1", b, hash,
                      Reading(OpenElection(), Some(prior), replaced));
  }

  /**
   The receipts of crypto.c do this: in an open election ann votes with nonce "aB" and bob with
   "b!"; then ann's next ballot, with any other nonce, is accepted, and bob's option has no live
   row although bob supports it.
   */
  lemma {:induction false} CollisionLosesVote(third: string)
    requires third != "aB" && third != "b!"
    ensures var log := TwoVotes(Issue, "aB", "b!");
            var prior, replaced := OwnerOf(log, 0), RowOf(log, 0);
            var b := Ballot("ann", third, [2]);
            var hash := Issue(third, NewVersion(Some(prior)));
            var d' := AfterBallot(TablesOf(log), "E-1", b, hash, Some(prior), replaced);
            && Holds(log, TablesOf(log)) && Recorded(Issue, TablesOf(log), d', "E-1", b, hash)
            && |Filter(d'.ballots, LiveFor("E-1", 1))| == 0
            && Supporters(log + [VoteOf("E-1", b, hash)], "E-1", 1) == {"bob"}
  {
    var log := TwoVotes(Issue, "aB", "b!");
    var b := Ballot("ann", third, [2]);
    SameReceipt(1);
    AnnRecorded(Issue, log, b, Issue(third, NewVersion(Some(OwnerOf(log, 0)))));
    SharedReceiptLosesVote(Issue, "aB", "b!", TablesOf(log), third, OwnerOf(log, 0), RowOf(log, 0));
  }

  lemma {:induction false} BobSupports(log: seq<Vote>, w: Vote)
    requires |log| == 2 && By(log[0], "E-1", "ann") && By(log[1], "E-1", "bob") && log[1].option == 1
    requires By(w, "E-1", "ann") && w.option == 2
    ensures Supporters(log + [w], "E-1", 1) == {"bob"}
  {
    var log' := log + [w];
    assert LastOf(log', "E-1", "ann") == Some(2);
    assert LastOf(log', "E-1", "bob") == Some(1);
    assert log'[1].voter == "bob";
    forall v | v in Supporters(log', "E-1", 1)
      ensures v == "bob"
    {
      var p := LastOf(log', "E-1", v).value;
      assert log'[p].voter == v;
    }
  }

  /** Replacing by hash drops every row that carries it. */
  lemma NoneLive(rows: multiset<BallotRow>, id: string, added: BallotRow, replaced: BallotRow, option: int)
    requires forall r :: r in rows ==> HashIs(id, replaced.hash)(r)
    requires added.option != option && replaced.election == id
    ensures var all := rows + multiset{added};
            var left := all - Filter(all, HashIs(id, replaced.hash)) + multiset{replaced.(superseded := true)};
            |Filter(left, LiveFor(id, option))| == 0
  {
    var all := rows + multiset{added};
    var left := all - Filter(all, HashIs(id, replaced.hash)) + multiset{replaced.(superseded := true)};
    forall r | r in left
      ensures !LiveFor(id, option)(r)
    {
      if r in rows {
        assert HashIs(id, replaced.hash)(r);
      }
    }
    assert Filter(left, LiveFor(id, option)) == multiset{};
  }

  lemma AllCarry(log: seq<Vote>, d: Db, id: string, hash: string)
    requires Holds(log, d) && forall j :: 0 <= j < |log| ==> log[j].election == id && log[j].hash == hash
    ensures forall r :: r in d.ballots ==> HashIs(id, hash)(r)
  {
    forall r | r in d.ballots
      ensures HashIs(id, hash)(r)
    {
      assert r in Rows(log);
      var j :| 0 <= j < |log| && Rows(log)[j] == r;
    }
  }

  lemma GoneFromTally(log: seq<Vote>, d: Db, id: string, b: Ballot, hash: string, prior: OwnerRow,
                      replaced: BallotRow, option: int)
    requires Holds(log, d) && Choice(b) != option
    requires forall j :: 0 <= j < |log| ==> log[j].election == id && log[j].hash == prior.hash
    requires replaced.election == id && replaced.hash == prior.hash
    ensures |Filter(AfterBallot(d, id, b, hash, Some(prior), replaced).ballots, LiveFor(id, option))| == 0
  {
    AllCarry(log, d, id, prior.hash);
    NoneLive(d.ballots, id, NewBallotRow(id, b, hash, Some(prior)), replaced, option);
    AfterFields(d, id, b, hash, Some(prior), replaced);
  }
}
