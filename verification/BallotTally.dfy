/**
 What one accepted ballot does to tables that hold a log, and what reading such tables
 back counts.
 */
module BallotTally {
  import opened Options
  import opened Tables
  import opened Commands
  import opened Brain
  import opened BallotLog

  // ---- multiplicities in a sequence

  lemma {:induction false} TwoOf<T>(s: seq<T>, i: nat, j: nat)
    requires i < j < |s|
    ensures multiset{s[i], s[j]} <= multiset(s)
  {
    assert s == s[..i] + [s[i]] + s[i + 1..j] + [s[j]] + s[j + 1..];
  }

  lemma {:induction false} OnceOnly<T>(s: seq<T>, i: nat)
    requires i < |s| && forall j :: 0 <= j < |s| && j != i ==> s[j] != s[i]
    ensures multiset(s)[s[i]] == 1
  {
    assert s == s[..i] + [s[i]] + s[i + 1..];
    assert s[i] !in s[..i] && s[i] !in s[i + 1..];
  }

  // ---- one accepted ballot

  /** GET_PRIOR_BALLOT answers with the voter's latest ballot in the log. */
  lemma {:induction false} PriorIsLast(log: seq<Vote>, d: Db, id: string, cert: string, prior: Option<OwnerRow>)
    requires HoldsVoters(log, d) && FindsOwner(d, id, cert, prior)
    ensures var p := LastOf(log, id, cert);
            if p.None? then prior.None? else prior == Some(OwnerOf(log, p.value))
    ensures NewVersion(prior) == CountOf(log, id, cert) + 1
  {
    var p := LastOf(log, id, cert);
    CountNoLast(log, id, cert);
    if p.Some? {
      LastRank(log, id, cert);
      OwnerMeans(log, OwnerOf(log, p.value));
      assert OwnerOf(log, p.value) in d.owners;
    }
    if prior.Some? {
      OwnerMeans(log, prior.value);
    }
  }

  /**
   Superseding deletes by (election, hash), so it is only right when no other ballot of the
   election, nor the new one, carries the superseded receipt.
   */
  ghost predicate PriorHashUnique(log: seq<Vote>, w: Vote)
  {
    var p := LastOf(log, w.election, w.voter);
    p.Some? ==>
      && w.hash != log[p.value].hash
      && forall j :: 0 <= j < |log| && j != p.value && log[j].election == w.election ==>
                       log[j].hash != log[p.value].hash
  }

  /** The rows that superseding deletes: the voter's previous row, and any other with its hash. */
  ghost function Carriers(log: seq<Vote>, w: Vote, p: nat): multiset<BallotRow>
    requires p < |log|
  {
    Filter(multiset(Rows(log)) + multiset{RowFor(log, w)}, HashIs(w.election, log[p].hash))
  }

  lemma {:induction false} OneCarrier(log: seq<Vote>, w: Vote)
    requires LastOf(log, w.election, w.voter).Some? && PriorHashUnique(log, w)
    ensures var p := LastOf(log, w.election, w.voter).value;
            Carriers(log, w, p) == multiset{RowOf(log, p)}
  {
    var p := LastOf(log, w.election, w.voter).value;
    var rows := Rows(log);
    OnceOnly(rows, p);
    assert rows[p] != RowFor(log, w);
    forall x | x != rows[p]
      ensures Carriers(log, w, p)[x] == 0
    {
      assert x in multiset(rows) <==> x in rows;
    }
  }

  lemma {:induction false} ManyCarriers(log: seq<Vote>, w: Vote)
    requires LastOf(log, w.election, w.voter).Some? && !PriorHashUnique(log, w)
    ensures |Carriers(log, w, LastOf(log, w.election, w.voter).value)| >= 2
  {
    var p := LastOf(log, w.election, w.voter).value;
    var rows := Rows(log);
    assert rows[p] in multiset(rows);
    var pair: multiset<BallotRow>;
    if w.hash == log[p].hash {
      pair := multiset{rows[p], RowFor(log, w)};
    } else {
      var j :| 0 <= j < |log| && j != p && log[j].election == w.election && log[j].hash == log[p].hash;
      pair := multiset{rows[p], rows[j]};
      if j < p { TwoOf(rows, j, p); } else { TwoOf(rows, p, j); }
    }
    assert pair <= Carriers(log, w, p);
    assert |Carriers(log, w, p)| == |pair| + |Carriers(log, w, p) - pair|;
  }

  ghost function VoteOf(id: string, b: Ballot, hash: string): Vote
  {
    Vote(id, b.cert, Choice(b), hash, b.nonce)
  }

  /**
   The write set of an accepted ballot turns tables that hold a log into tables that hold
   the log with that ballot added, if and only if the superseded receipt is not shared.
   */
  lemma {:induction false} BallotLands(log: seq<Vote>, d: Db, id: string, b: Ballot, hash: string,
                                       prior: Option<OwnerRow>, replaced: BallotRow)
    requires Holds(log, d) && FindsOwner(d, id, b.cert, prior)
    requires prior.Some? ==>
               && replaced in d.ballots + multiset{NewBallotRow(id, b, hash, prior)}
               && HashIs(id, prior.value.hash)(replaced)
    ensures Holds(log + [VoteOf(id, b, hash)], AfterBallot(d, id, b, hash, prior, replaced))
            <==> PriorHashUnique(log, VoteOf(id, b, hash))
  {
    var w := VoteOf(id, b, hash);
    var d' := AfterBallot(d, id, b, hash, prior, replaced);
    assert Holds(log + [w], d') <==> d'.ballots == multiset(Rows(log + [w])) by {
      OthersFollow(log, d, id, b, hash, prior, replaced);
    }
    BallotsFollow(log, d, id, b, hash, prior, replaced);
  }

  lemma {:induction false} BallotsFollow(log: seq<Vote>, d: Db, id: string, b: Ballot, hash: string,
                                         prior: Option<OwnerRow>, replaced: BallotRow)
    requires Holds(log, d) && FindsOwner(d, id, b.cert, prior)
    requires prior.Some? ==>
               && replaced in d.ballots + multiset{NewBallotRow(id, b, hash, prior)}
               && HashIs(id, prior.value.hash)(replaced)
    ensures AfterBallot(d, id, b, hash, prior, replaced).ballots == multiset(Rows(log + [VoteOf(id, b, hash)]))
            <==> PriorHashUnique(log, VoteOf(id, b, hash))
  {
    var w := VoteOf(id, b, hash);
    assert NewBallotRow(id, b, hash, prior) == RowFor(log, w) by {
      PriorIsLast(log, d, id, b.cert, prior);
    }
    assert prior.Some? <==> LastOf(log, id, b.cert).Some? by {
      PriorIsLast(log, d, id, b.cert, prior);
    }
    AfterFields(d, id, b, hash, prior, replaced);
    if prior.Some? {
      assert prior.value.hash == log[LastOf(log, id, b.cert).value].hash by {
        PriorIsLast(log, d, id, b.cert, prior);
      }
      BallotsAfter(log, w, replaced);
    } else {
      RowsExtend(log, w);
    }
  }

  /** The owner and nonce tables follow the log whatever the receipts. */
  lemma {:induction false} OthersFollow(log: seq<Vote>, d: Db, id: string, b: Ballot, hash: string,
                                        prior: Option<OwnerRow>, replaced: BallotRow)
    requires HoldsVoters(log, d) && FindsOwner(d, id, b.cert, prior)
    ensures HoldsVoters(log + [VoteOf(id, b, hash)], AfterBallot(d, id, b, hash, prior, replaced))
  {
    var w := VoteOf(id, b, hash);
    assert OwnerFor(log, w) == OwnerRow(id, b.cert, hash, NewVersion(prior)) by {
      PriorIsLast(log, d, id, b.cert, prior);
    }
    AfterFields(d, id, b, hash, prior, replaced);
    OwnersAfter(log, d, w);
    NoncesExtend(log, w);
  }

  lemma {:induction false} AfterFields(d: Db, id: string, b: Ballot, hash: string, prior: Option<OwnerRow>,
                                       replaced: BallotRow)
    ensures var d' := AfterBallot(d, id, b, hash, prior, replaced);
            && d'.owners == WithOwner(d, OwnerRow(id, b.cert, hash, NewVersion(prior))).owners
            && d'.nonces == d.nonces + multiset{NonceRow(id, b.nonce)}
            && d'.elections == d.elections && d'.options == d.options && d'.eligible == d.eligible
            && d'.ballots ==
               var rows := d.ballots + multiset{NewBallotRow(id, b, hash, prior)};
               if prior.None? then rows
               else rows - Filter(rows, HashIs(replaced.election, replaced.hash))
                    + multiset{replaced.(superseded := true)}
  {
  }

  lemma {:induction false} BallotsAfter(log: seq<Vote>, w: Vote, replaced: BallotRow)
    requires LastOf(log, w.election, w.voter).Some?
    requires replaced in Carriers(log, w, LastOf(log, w.election, w.voter).value)
    ensures multiset(Rows(log)) + multiset{RowFor(log, w)}
            - Carriers(log, w, LastOf(log, w.election, w.voter).value) + multiset{replaced.(superseded := true)}
            == multiset(Rows(log + [w]))
            <==> PriorHashUnique(log, w)
  {
    var p := LastOf(log, w.election, w.voter).value;
    var rows := multiset(Rows(log));
    RowsExtend(log, w);
    if PriorHashUnique(log, w) {
      OneCarrier(log, w);
      assert RowOf(log, p) in rows by { assert Rows(log)[p] in Rows(log); }
    } else {
      ManyCarriers(log, w);
      var gone := Carriers(log, w, p);
      assert gone <= rows + multiset{RowFor(log, w)};
      assert |rows + multiset{RowFor(log, w)} - gone| == |log| + 1 - |gone|;
      assert |multiset(Rows(log + [w]))| == |log| + 1;
    }
  }

  /** A shared superseded receipt costs at least one ballot its row. */
  lemma {:induction false} RowsLost(log: seq<Vote>, d: Db, id: string, b: Ballot, hash: string, prior: Option<OwnerRow>,
                                    replaced: BallotRow)
    requires Holds(log, d) && FindsOwner(d, id, b.cert, prior) && !PriorHashUnique(log, VoteOf(id, b, hash))
    requires prior.Some? ==> HashIs(id, prior.value.hash)(replaced)
    ensures |AfterBallot(d, id, b, hash, prior, replaced).ballots| <= |log|
  {
    var w := VoteOf(id, b, hash);
    PriorIsLast(log, d, id, b.cert, prior);
    AfterFields(d, id, b, hash, prior, replaced);
    ManyCarriers(log, w);
    var rows, gone := d.ballots + multiset{RowFor(log, w)}, Carriers(log, w, LastOf(log, id, b.cert).value);
    assert NewBallotRow(id, b, hash, prior) == RowFor(log, w) && gone <= rows;
    assert |rows - gone| == |rows| - |gone|;
  }

  lemma {:induction false} OwnersAfter(log: seq<Vote>, d: Db, w: Vote)
    requires HoldsVoters(log, d)
    ensures WithOwner(d, OwnerFor(log, w)).owners == multiset(Owners(log + [w]))
  {
    OwnersExtend(log, w);
  }

  // ---- fresh receipts

  ghost predicate HashesUnique(log: seq<Vote>)
  {
    forall i, j :: 0 <= i < j < |log| && log[i].election == log[j].election ==> log[i].hash != log[j].hash
  }

  ghost predicate FreshIn(log: seq<Vote>, id: string, hash: string)
  {
    forall j :: 0 <= j < |log| && log[j].election == id ==> log[j].hash != hash
  }

  /** A receipt that is new in its election keeps all receipts distinct. */
  lemma {:induction false} FreshKeepsUnique(log: seq<Vote>, w: Vote)
    requires HashesUnique(log) && FreshIn(log, w.election, w.hash)
    ensures PriorHashUnique(log, w) && HashesUnique(log + [w])
  {
    var p := LastOf(log, w.election, w.voter);
    if p.Some? {
      forall j | 0 <= j < |log| && j != p.value && log[j].election == w.election
        ensures log[j].hash != log[p.value].hash
      {
        if j < p.value {
          assert log[j].election == log[p.value].election;
        } else {
          assert log[p.value].election == log[j].election;
        }
      }
    }
  }

  // ---- counting

  /** The indices below n whose row matches. */
  ghost function Matching<T(!new)>(s: seq<T>, p: T -> bool, n: nat): set<nat>
    requires n <= |s|
  {
    set j: nat | j < n && p(s[j])
  }

  lemma MatchingStep<T(!new)>(s: seq<T>, p: T -> bool, n: nat)
    requires n < |s|
    ensures |Matching(s, p, n + 1)| == |Matching(s, p, n)| + if p(s[n]) then 1 else 0
  {
    assert Matching(s, p, n + 1) == Matching(s, p, n) + if p(s[n]) then {n} else {};
  }

  lemma {:induction false} FilterCount<T(!new)>(s: seq<T>, p: T -> bool, n: nat)
    requires n <= |s|
    ensures |Filter(multiset(s[..n]), p)| == |Matching(s, p, n)|
  {
    if n > 0 {
      FilterCount(s, p, n - 1);
      FilterAppend(s, n - 1, p);
      MatchingStep(s, p, n - 1);
    } else {
      assert Filter(multiset(s[..n]), p) == multiset{};
      assert Matching(s, p, n) == {};
    }
  }

  /** A one-to-one naming does not change how many there are. */
  lemma {:induction false} NamesCount(indices: set<nat>, log: seq<Vote>, names: set<string>)
    requires forall j :: j in indices ==> j < |log| && log[j].voter in names
    requires forall i, j :: i in indices && j in indices && i != j ==> log[i].voter != log[j].voter
    requires forall v :: v in names ==> exists j :: j in indices && log[j].voter == v
    ensures |indices| == |names|
  {
    if indices == {} {
      assert names == {};
    } else {
      var j :| j in indices;
      var names' := names - {log[j].voter};
      forall v | v in names'
        ensures exists i :: i in indices - {j} && log[i].voter == v
      {
        var i :| i in indices && log[i].voter == v;
        assert i in indices - {j};
      }
      NamesCount(indices - {j}, log, names');
    }
  }

  function VoterNames(log: seq<Vote>): set<string> { set j | 0 <= j < |log| :: log[j].voter }

  /** The voters whose latest ballot in the election chose the option. */
  function Supporters(log: seq<Vote>, id: string, option: int): set<string>
  {
    set v | v in VoterNames(log) && LastOf(log, id, v).Some? && log[LastOf(log, id, v).value].option == option
  }

  /** The voters who have a ballot in the election. */
  function Turnout(log: seq<Vote>, id: string): set<string>
  {
    set v | v in VoterNames(log) && LastOf(log, id, v).Some?
  }

  ghost function LiveOf(log: seq<Vote>, id: string, names: set<string>): set<nat>
  {
    set j | 0 <= j < |log| && log[j].election == id && !HasLater(log, j) && log[j].voter in names
  }

  lemma {:induction false} LiveOfCount(log: seq<Vote>, id: string, names: set<string>)
    requires forall v :: v in names ==> LastOf(log, id, v).Some?
    ensures |LiveOf(log, id, names)| == |names|
  {
    var live := LiveOf(log, id, names);
    forall v | v in names
      ensures exists j :: j in live && log[j].voter == v
    {
      var j := LastOf(log, id, v).value;
      LiveIsLast(log, j);
      assert j in live;
    }
    forall i, j | i in live && j in live && i != j
      ensures log[i].voter != log[j].voter
    {
      LiveIsLast(log, i);
      LiveIsLast(log, j);
    }
    NamesCount(live, log, names);
  }

  lemma CountMatching<T(!new)>(rows: seq<T>, p: T -> bool, matching: set<nat>)
    requires forall j: nat :: j in matching <==> j < |rows| && p(rows[j])
    ensures |Filter(multiset(rows), p)| == |matching|
  {
    assert rows[..|rows|] == rows;
    FilterCount(rows, p, |rows|);
    assert Matching(rows, p, |rows|) == matching;
  }

  lemma {:induction false} LastNames(log: seq<Vote>, j: nat)
    requires j < |log| && !HasLater(log, j)
    ensures LastOf(log, log[j].election, log[j].voter) == Some(j) && log[j].voter in VoterNames(log)
  {
    LiveIsLast(log, j);
  }

  /** The tally of an option is the number of voters whose latest ballot chose it. */
  lemma {:induction false} TallyExact(log: seq<Vote>, d: Db, id: string, option: int)
    requires Holds(log, d)
    ensures |Filter(d.ballots, LiveFor(id, option))| == |Supporters(log, id, option)|
  {
    var names := Supporters(log, id, option);
    forall j: nat
      ensures j in LiveOf(log, id, names) <==> j < |log| && LiveFor(id, option)(Rows(log)[j])
    {
      if j < |log| && log[j].election == id && !HasLater(log, j) {
        LastNames(log, j);
      }
    }
    CountMatching(Rows(log), LiveFor(id, option), LiveOf(log, id, names));
    LiveOfCount(log, id, names);
  }

  /** The published list has one row for every voter who has voted. */
  lemma {:induction false} HashListExact(log: seq<Vote>, d: Db, id: string)
    requires Holds(log, d)
    ensures |Filter(d.ballots, LiveIn(id))| == |Turnout(log, id)|
  {
    var names := Turnout(log, id);
    forall j: nat
      ensures j in LiveOf(log, id, names) <==> j < |log| && LiveIn(id)(Rows(log)[j])
    {
      if j < |log| && log[j].election == id && !HasLater(log, j) {
        LastNames(log, j);
      }
    }
    CountMatching(Rows(log), LiveIn(id), LiveOf(log, id, names));
    LiveOfCount(log, id, names);
  }

  function Sum(tally: seq<nat>): nat
  {
    if tally == [] then 0 else Sum(tally[..|tally| - 1]) + tally[|tally| - 1]
  }

  /** The voters whose latest ballot in the election chose an option below the bound. */
  function Below(log: seq<Vote>, id: string, bound: int): set<string>
  {
    set v | v in Turnout(log, id) && 0 <= log[LastOf(log, id, v).value].option < bound
  }

  /** Every voter is counted for exactly one option. */
  lemma {:induction false} TallySums(log: seq<Vote>, id: string, tally: seq<nat>)
    requires forall i :: 0 <= i < |tally| ==> tally[i] == |Supporters(log, id, i)|
    ensures Sum(tally) == |Below(log, id, |tally|)|
  {
    var n := |tally| - 1;
    if tally == [] {
      assert Below(log, id, 0) == {};
    } else {
      TallySums(log, id, tally[..n]);
      var before := Below(log, id, n);
      var here := Supporters(log, id, n);
      assert before !! here;
      assert |before + here| == |before| + |here|;
      assert Below(log, id, n + 1) == before + here;
    }
  }
}
