/**
 The plain meaning of the three ballot tables: a log of accepted ballots, oldest first.

 Every ballot of the log has one row; its version is its rank among that voter's ballots
 in that election, and it is superseded exactly when the voter has a later one. Every
 voter who has voted has one owner row, for the latest ballot. Every ballot has one nonce
 row.
 */
module BallotLog {
  import opened Options
  import opened Tables
  import opened Commands

  datatype Vote = Vote(election: string, voter: string, option: int, hash: string, nonce: string)

  predicate SameVoter(a: Vote, b: Vote) { a.election == b.election && a.voter == b.voter }

  predicate By(w: Vote, id: string, voter: string) { w.election == id && w.voter == voter }

  /** How many ballots a voter has cast in an election. */
  function CountOf(log: seq<Vote>, id: string, voter: string): nat
  {
    if log == [] then 0
    else CountOf(log[..|log| - 1], id, voter) + if By(log[|log| - 1], id, voter) then 1 else 0
  }

  /** Where a voter's latest ballot is. */
  function LastOf(log: seq<Vote>, id: string, voter: string): (p: Option<nat>)
    ensures p.None? ==> forall j :: 0 <= j < |log| ==> !By(log[j], id, voter)
    ensures p.Some? ==>
              && p.value < |log| && By(log[p.value], id, voter)
              && (forall j :: p.value < j < |log| ==> !By(log[j], id, voter))
  {
    if log == [] then None
    else if By(log[|log| - 1], id, voter) then Some(|log| - 1)
    else
      var p := LastOf(log[..|log| - 1], id, voter);
      assert forall j :: 0 <= j < |log| - 1 ==> log[..|log| - 1][j] == log[j];
      p
  }

  ghost predicate HasLater(log: seq<Vote>, j: nat)
    requires j < |log|
  {
    exists k :: j < k < |log| && SameVoter(log[j], log[k])
  }

  function Rank(log: seq<Vote>, j: nat): nat
    requires j < |log|
  {
    CountOf(log[..j], log[j].election, log[j].voter) + 1
  }

  ghost function RowOf(log: seq<Vote>, j: nat): BallotRow
    requires j < |log|
  {
    BallotRow(log[j].election, log[j].hash, log[j].option, Rank(log, j), HasLater(log, j))
  }

  function OwnerOf(log: seq<Vote>, j: nat): OwnerRow
    requires j < |log|
  {
    OwnerRow(log[j].election, log[j].voter, log[j].hash, Rank(log, j))
  }

  ghost function Rows(log: seq<Vote>): (rows: seq<BallotRow>)
    ensures |rows| == |log|
    ensures forall j :: 0 <= j < |log| ==> rows[j] == RowOf(log, j)
  {
    seq(|log|, j requires 0 <= j < |log| => RowOf(log, j))
  }

  ghost function Owners(log: seq<Vote>): set<OwnerRow>
  {
    set j | 0 <= j < |log| && !HasLater(log, j) :: OwnerOf(log, j)
  }

  function Nonces(log: seq<Vote>): (rows: seq<NonceRow>)
    ensures |rows| == |log|
    ensures forall j :: 0 <= j < |log| ==> rows[j] == NonceRow(log[j].election, log[j].nonce)
  {
    seq(|log|, j requires 0 <= j < |log| => NonceRow(log[j].election, log[j].nonce))
  }

  /** The owner and nonce tables are those of the log. */
  ghost predicate HoldsVoters(log: seq<Vote>, d: Db)
  {
    && d.owners == multiset(Owners(log))
    && d.nonces == multiset(Nonces(log))
  }

  /** The ballot, owner and nonce tables are those of the log. */
  ghost predicate Holds(log: seq<Vote>, d: Db)
  {
    d.ballots == multiset(Rows(log)) && HoldsVoters(log, d)
  }

  // ---- facts about ranks

  lemma {:induction false} NoneCounted(log: seq<Vote>, id: string, voter: string)
    requires forall j :: 0 <= j < |log| ==> !By(log[j], id, voter)
    ensures CountOf(log, id, voter) == 0
  {
    if log != [] {
      NoneCounted(log[..|log| - 1], id, voter);
    }
  }

  /** A voter's latest ballot has the voter's ballot count as its version. */
  lemma {:induction false} LastRank(log: seq<Vote>, id: string, voter: string)
    requires LastOf(log, id, voter).Some?
    ensures Rank(log, LastOf(log, id, voter).value) == CountOf(log, id, voter)
    ensures !HasLater(log, LastOf(log, id, voter).value)
  {
    var n := |log| - 1;
    if !By(log[n], id, voter) {
      var init := log[..n];
      LastRank(init, id, voter);
      var p := LastOf(init, id, voter).value;
      assert init[..p] == log[..p];
    }
  }

  lemma {:induction false} CountNoLast(log: seq<Vote>, id: string, voter: string)
    ensures LastOf(log, id, voter).None? <==> CountOf(log, id, voter) == 0
  {
    if LastOf(log, id, voter).None? {
      NoneCounted(log, id, voter);
    } else {
      LastRank(log, id, voter);
    }
  }

  lemma {:induction false} CountGrows(log: seq<Vote>, id: string, voter: string, n: nat)
    requires n <= |log|
    ensures CountOf(log[..n], id, voter) <= CountOf(log, id, voter)
  {
    if n < |log| {
      var init := log[..|log| - 1];
      CountGrows(init, id, voter, n);
      assert init[..n] == log[..n];
    } else {
      assert log[..n] == log;
    }
  }

  lemma {:induction false} LiveIsLast(log: seq<Vote>, j: nat)
    requires j < |log|
    ensures !HasLater(log, j) <==> LastOf(log, log[j].election, log[j].voter) == Some(j)
  {
    var p := LastOf(log, log[j].election, log[j].voter);
    assert p.Some? && p.value >= j;
  }

  // ---- adding one ballot

  lemma {:induction false} RankKept(log: seq<Vote>, w: Vote, j: nat)
    requires j < |log|
    ensures Rank(log + [w], j) == Rank(log, j)
  {
    assert (log + [w])[..j] == log[..j];
  }

  lemma {:induction false} LaterAfter(log: seq<Vote>, w: Vote, j: nat)
    requires j < |log|
    ensures HasLater(log + [w], j) <==> HasLater(log, j) || SameVoter(log[j], w)
  {
    var log' := log + [w];
    assert log'[|log|] == w;
    if HasLater(log, j) {
      var k :| j < k < |log| && SameVoter(log[j], log[k]);
      assert log'[k] == log[k];
    }
    if HasLater(log', j) && !SameVoter(log[j], w) {
      var k :| j < k < |log'| && SameVoter(log'[j], log'[k]);
      assert log[k] == log'[k];
    }
  }

  function RowFor(log: seq<Vote>, w: Vote): BallotRow
  {
    BallotRow(w.election, w.hash, w.option, CountOf(log, w.election, w.voter) + 1, false)
  }

  function OwnerFor(log: seq<Vote>, w: Vote): OwnerRow
  {
    OwnerRow(w.election, w.voter, w.hash, CountOf(log, w.election, w.voter) + 1)
  }

  /** One more ballot adds one live row and supersedes the voter's previous one. */
  lemma {:induction false} RowsExtend(log: seq<Vote>, w: Vote)
    ensures var p := LastOf(log, w.election, w.voter);
            multiset(Rows(log + [w])) ==
            if p.None? then multiset(Rows(log)) + multiset{RowFor(log, w)}
            else multiset(Rows(log)) - multiset{RowOf(log, p.value)}
                 + multiset{RowOf(log, p.value).(superseded := true)} + multiset{RowFor(log, w)}
  {
    var p := LastOf(log, w.election, w.voter);
    var log' := log + [w];
    var changed := if p.None? then Rows(log) else Rows(log)[p.value := RowOf(log, p.value).(superseded := true)];
    assert Rows(log') == changed + [RowFor(log, w)] by {
      forall j | 0 <= j < |log|
        ensures RowOf(log', j) == changed[j]
      {
        RankKept(log, w, j);
        LaterAfter(log, w, j);
        LiveIsLast(log, j);
      }
      assert log'[..|log|] == log && !HasLater(log', |log|);
    }
    if p.Some? {
      assert multiset(changed) == multiset(Rows(log)) - multiset{Rows(log)[p.value]} + multiset{changed[p.value]};
    }
  }

  /** Owner rows belong to the voters who have voted, one each. */
  lemma {:induction false} OwnerMeans(log: seq<Vote>, o: OwnerRow)
    ensures o in Owners(log) <==>
            LastOf(log, o.election, o.cert).Some? && o == OwnerOf(log, LastOf(log, o.election, o.cert).value)
  {
    if o in Owners(log) {
      var j :| 0 <= j < |log| && !HasLater(log, j) && o == OwnerOf(log, j);
      LiveIsLast(log, j);
    }
    var p := LastOf(log, o.election, o.cert);
    if p.Some? && o == OwnerOf(log, p.value) {
      LastRank(log, o.election, o.cert);
    }
  }

  lemma {:induction false} OwnersExtend(log: seq<Vote>, w: Vote)
    ensures Owners(log + [w]) == (set o | o in Owners(log) && !OwnedBy(w.election, w.voter)(o)) + {OwnerFor(log, w)}
  {
    var log' := log + [w];
    var kept := set o | o in Owners(log) && !OwnedBy(w.election, w.voter)(o);
    forall o
      ensures o in Owners(log') <==> o in kept || o == OwnerFor(log, w)
    {
      OwnerMeans(log, o);
      OwnerMeans(log', o);
      assert log'[..|log|] == log;
      var p := LastOf(log', o.election, o.cert);
      if p.Some? && p.value < |log| {
        RankKept(log, w, p.value);
      }
    }
  }

  lemma {:induction false} NoncesExtend(log: seq<Vote>, w: Vote)
    ensures multiset(Nonces(log + [w])) == multiset(Nonces(log)) + multiset{NonceRow(w.election, w.nonce)}
  {
    assert Nonces(log + [w]) == Nonces(log) + [NonceRow(w.election, w.nonce)];
  }
}
