/**
 What the stores of runs hold whose receipts were not shared: receipts that can be looked up,
 versions, and the owner, ballot and nonce rows matched to one another.
 */
module Reachable {
  import opened Options
  import opened Tables
  import opened Commands
  import opened Brain
  import opened BallotLog
  import opened BallotTally
  import opened Refinement
  import opened Runs
  import opened Outcomes
  import opened FinalResults

  // ---- receipts

  /** An accepted ballot sits in every later log where it was first recorded. */
  lemma {:induction false} ReceiptKept(ws: seq<World>, evs: seq<Event>, i: nat, j: nat)
    requires IsLawfulRun(ws, evs) && i < j < |ws|
    requires evs[i].req.Submit? && evs[i].resp.status == Success && evs[i].resp.body.Receipt?
    ensures var n := |ws[i].log|;
            n < |ws[j].log| && ws[j].log[n] == VoteOf(evs[i].req.id, evs[i].req.ballot, evs[i].resp.body.hash)
  {
    assert Moved(ws, evs, i);
    RunLater(ws, evs, i + 1, j);
    assert ws[i + 1].log[|ws[i].log|] == ws[j].log[|ws[i].log|];
  }

  lemma OnlyThatReceipt(log: seq<Vote>, n: nat, k: nat)
    requires HashesUnique(log) && n < |log| && k < |log|
    requires log[k].election == log[n].election && log[k].hash == log[n].hash
    ensures k == n
  {
  }

  /**
   A receipt handed out for a ballot is found, with the option voted for and its name, in every
   later state until the same voter's next accepted ballot, and is never found after it.
   */
  lemma {:induction false} ReceiptLookup(ws: seq<World>, evs: seq<Event>, i: nat, j: nat)
    requires IsWorldRun(ws, evs) && i < j < |evs| && HashesUnique(ws[j].log)
    requires evs[i].req.Submit? && evs[i].resp.status == Success && evs[i].resp.body.Receipt?
    requires evs[j].req == Check(evs[i].req.id, evs[i].resp.body.hash)
    ensures |ws[i].log| < |ws[j].log|
    ensures Answered(evs[j].resp.status) ==>
              evs[j].resp.status == if HasLater(ws[j].log, |ws[i].log|) then NotFound else Success
    ensures evs[j].resp.status == Success ==>
              && evs[j].resp.body.Counted? && evs[j].resp.body.row.Some?
              && NamesChoice(ws[i], evs[i].req.id, evs[i].req.ballot, evs[j].resp.body.row.value, evs[j].resp.body.name)
  {
    var log, n, id, hash := ws[j].log, |ws[i].log|, evs[i].req.id, evs[i].resp.body.hash;
    ReceiptKept(ws, evs, i, j);
    assert CountsRight(ws[j], evs[j].req, evs[j].resp);
    OneReceipt(ws[j], id, hash, n);
    if evs[j].resp.status == Success {
      var option, name := evs[j].resp.body.row.value.option, evs[j].resp.body.name;
      var k: nat :| Reported(ws[j], id, hash, k, option, name);
      OnlyThatReceipt(log, n, k);
      NamesThen(ws, evs, i, j, id, option, name);
    }
  }

  /** The row carries the ballot's choice, and the name is that option's when the ballot was cast. */
  ghost predicate NamesChoice(w: World, id: string, b: Ballot, row: BallotRow, name: string)
  {
    && row.option == Choice(b) && id in w.elections
    && 0 <= row.option < |w.elections[id].options| && w.elections[id].options[row.option] == name
  }

  /** The receipt of ballot `n` is found exactly while that ballot is the voter's latest. */
  lemma {:induction false} OneReceipt(w: World, id: string, hash: string, n: nat)
    requires Lawful(w) && HashesUnique(w.log) && n < |w.log| && w.log[n].election == id && w.log[n].hash == hash
    ensures Ruling(w, Check(id, hash)) == if HasLater(w.log, n) then NotFound else Success
  {
    VoteInRange(w, n);
    forall j: nat | LiveReceipt(w.log, id, hash, j)
      ensures j == n
    {
      OnlyThatReceipt(w.log, n, j);
    }
    assert !HasLater(w.log, n) ==> LiveReceipt(w.log, id, hash, n);
  }

  /** An option's name at a later moment was its name when an accepted ballot was cast. */
  lemma NamesThen(ws: seq<World>, evs: seq<Event>, i: nat, j: nat, id: string, option: int, name: string)
    requires IsLawfulRun(ws, evs) && i < j < |ws| && evs[i].req.Submit? && evs[i].req.id == id
    requires evs[i].resp.status == Success && id in ws[j].elections && 0 <= option < |ws[j].elections[id].options|
    requires ws[j].elections[id].options[option] == name
    ensures id in ws[i].elections && 0 <= option < |ws[i].elections[id].options|
    ensures ws[i].elections[id].options[option] == name
  {
    assert Moved(ws, evs, i);
    assert Verdict(ws[i], id, evs[i].req.ballot) == Success;
    SettingsStay(ws, evs, i, j, id);
  }

  // ---- receipts, in terms of what was asked and what was stored

  /** The log grows by an accepted ballot, and by nothing else. */
  lemma {:induction false} GrownAt(issue: (string, int) -> string, ws: seq<World>, ds: seq<Db>, evs: seq<Event>, k: nat)
    requires IsRun(issue, ds, evs) && Shadows(issue, ws, ds, evs) && k < |evs|
    ensures !Accepted(ds, evs, k) ==> ws[k + 1].log == ws[k].log
    ensures Accepted(ds, evs, k) ==>
              exists v :: ws[k + 1].log == ws[k].log + [v] && By(v, evs[k].req.id, evs[k].req.ballot.cert)
  {
    assert LandsAt(issue, ws, ds, evs, k) && TrackedAt(ws, ds, k) && TrackedAt(ws, ds, k + 1);
    if ws[k + 1].log != ws[k].log {
      var hash :| && Recorded(issue, ds[k], ds[k + 1], evs[k].req.id, evs[k].req.ballot, hash)
                  && ws[k + 1].log == ws[k].log + [VoteOf(evs[k].req.id, evs[k].req.ballot, hash)];
      RecordedMoves(issue, ds[k], ds[k + 1], evs[k].req.id, evs[k].req.ballot, hash);
    } else if Accepted(ds, evs, k) {
      var hash := AcceptedRecords(issue, ds, evs, k);
      RecordedMoves(issue, ds[k], ds[k + 1], evs[k].req.id, evs[k].req.ballot, hash);
    }
  }

  /** A ballot of the voter was accepted between two moments of a run. */
  ghost predicate VotedBetween(ds: seq<Db>, evs: seq<Event>, from: nat, to: nat, id: string, cert: string)
    requires |ds| == |evs| + 1 && to <= |evs|
  {
    exists k :: from <= k < to && Accepted(ds, evs, k) && evs[k].req.id == id && evs[k].req.ballot.cert == cert
  }

  /** Every ballot the log gained between two moments was accepted in between. */
  lemma {:induction false} GainedBetween(issue: (string, int) -> string, ws: seq<World>, ds: seq<Db>, evs: seq<Event>,
                                         from: nat, to: nat, id: string, cert: string)
    requires IsRun(issue, ds, evs) && Shadows(issue, ws, ds, evs) && from <= to <= |evs|
    ensures ws[from].log <= ws[to].log
    ensures VotedBetween(ds, evs, from, to, id, cert) <==>
            exists m :: |ws[from].log| <= m < |ws[to].log| && By(ws[to].log[m], id, cert)
  {
    if from < to {
      GainedBetween(issue, ws, ds, evs, from, to - 1, id, cert);
      GrownAt(issue, ws, ds, evs, to - 1);
      OneMore(ds, evs, from, to, id, cert);
      NewEntry(ws[from].log, ws[to - 1].log, ws[to].log, id, cert);
    }
  }

  lemma OneMore(ds: seq<Db>, evs: seq<Event>, from: nat, to: nat, id: string, cert: string)
    requires |ds| == |evs| + 1 && from < to <= |evs|
    ensures VotedBetween(ds, evs, from, to, id, cert) <==>
            || VotedBetween(ds, evs, from, to - 1, id, cert)
            || (Accepted(ds, evs, to - 1) && evs[to - 1].req.id == id && evs[to - 1].req.ballot.cert == cert)
  {
  }

  lemma NewEntry(a: seq<Vote>, b: seq<Vote>, c: seq<Vote>, id: string, cert: string)
    requires a <= b <= c && |c| <= |b| + 1
    ensures (exists m :: |a| <= m < |c| && By(c[m], id, cert)) <==>
            || (exists m :: |a| <= m < |b| && By(b[m], id, cert))
            || (|b| < |c| && By(c[|b|], id, cert))
  {
    assert forall m :: 0 <= m < |b| ==> b[m] == c[m];
  }

  /** A ballot told of success is superseded exactly by a later accepted ballot of its voter. */
  lemma {:induction false} LaterMeans(issue: (string, int) -> string, ws: seq<World>, ds: seq<Db>, evs: seq<Event>,
                                      i: nat, j: nat)
    requires IsRun(issue, ds, evs) && Shadows(issue, ws, ds, evs) && i < j < |evs|
    requires evs[i].req.Submit? && evs[i].resp.status == Success && evs[i].resp.body.Receipt?
    ensures |ws[i].log| < |ws[j].log|
    ensures HasLater(ws[j].log, |ws[i].log|) <==>
            VotedBetween(ds, evs, i + 1, j, evs[i].req.id, evs[i].req.ballot.cert)
  {
    var n, id, cert := |ws[i].log|, evs[i].req.id, evs[i].req.ballot.cert;
    ReceiptKept(ws, evs, i, j);
    ReceiptKept(ws, evs, i, i + 1);
    GrownAt(issue, ws, ds, evs, i);
    GainedBetween(issue, ws, ds, evs, i + 1, j, id, cert);
    LaterBy(ws[j].log, n, id, cert);
  }

  lemma LaterBy(log: seq<Vote>, n: nat, id: string, cert: string)
    requires n < |log| && By(log[n], id, cert)
    ensures HasLater(log, n) <==> exists m :: n + 1 <= m < |log| && By(log[m], id, cert)
  {
    if m :| n + 1 <= m < |log| && By(log[m], id, cert) {
      assert SameVoter(log[n], log[m]);
    }
  }

  /**
   In every run with new receipts, looking up the receipt of an accepted ballot finds it, with the
   option voted for and its name, as long as no later ballot of the voter was accepted; after that
   it is not found.
   */
  lemma {:induction false} ReceiptAnswered(issue: (string, int) -> string, ds: seq<Db>, evs: seq<Event>, i: nat, j: nat)
    requires IsRun(issue, ds, evs) && AllNumbered(ds, evs) && AllUnshared(issue, ds, evs) && ds[0] == EmptyDb
    requires i < j < |evs| && evs[i].req.Submit? && evs[i].resp.status == Success && evs[i].resp.body.Receipt?
    requires evs[j].req == Check(evs[i].req.id, evs[i].resp.body.hash) && Answered(evs[j].resp.status)
    ensures var again := VotedBetween(ds, evs, i + 1, j, evs[i].req.id, evs[i].req.ballot.cert);
            evs[j].resp.status == if again then NotFound else Success
    ensures evs[j].resp.status == Success ==>
              && evs[j].resp.body.Counted? && evs[j].resp.body.row.Some?
              && evs[j].resp.body.row.value.option == Choice(evs[i].req.ballot)
  {
    var id, cert := evs[i].req.id, evs[i].req.ballot.cert;
    var ws := RunDistinct(issue, ds, evs);
    ReceiptLookup(ws, evs, i, j);
    LaterMeans(issue, ws, ds, evs, i, j);
  }

  // ---- the shape of the tables in every reachable state

  /** A voter's ballots have versions 1, 2, ..., and only the highest is live. */
  lemma {:induction false} VersionsRunUp(log: seq<Vote>, j: nat)
    requires j < |log|
    ensures 1 <= Rank(log, j) <= CountOf(log, log[j].election, log[j].voter)
    ensures HasLater(log, j) <==> Rank(log, j) < CountOf(log, log[j].election, log[j].voter)
  {
    var id, v := log[j].election, log[j].voter;
    CountGrows(log, id, v, j + 1);
    assert log[..j + 1][..j] == log[..j];
    LiveIsLast(log, j);
    LastRank(log, id, v);
    if HasLater(log, j) {
      var p := LastOf(log, id, v).value;
      CountGrows(log[..p], id, v, j + 1);
      assert log[..p][..j + 1] == log[..j + 1];
    }
  }

  /** Two ballots of a voter have different versions, and every version up to the count occurs. */
  lemma {:induction false} VersionAt(log: seq<Vote>, id: string, voter: string, k: nat) returns (j: nat)
    requires 1 <= k <= CountOf(log, id, voter)
    ensures j < |log| && By(log[j], id, voter) && Rank(log, j) == k
    ensures forall i :: 0 <= i < |log| && By(log[i], id, voter) && Rank(log, i) == k ==> i == j
  {
    var n := |log| - 1;
    var init := log[..n];
    if By(log[n], id, voter) && k == CountOf(log, id, voter) {
      j := n;
      forall i | 0 <= i < |log| && By(log[i], id, voter) && Rank(log, i) == k
        ensures i == j
      {
        if i < n {
          assert init[..i] == log[..i];
          VersionsRunUp(init, i);
        }
      }
    } else {
      j := VersionAt(init, id, voter, k);
      assert init[..j] == log[..j];
      forall i | 0 <= i < |log| && By(log[i], id, voter) && Rank(log, i) == k
        ensures i == j
      {
        if i < n {
          assert init[..i] == log[..i] && Rank(init, i) == k;
        }
      }
    }
  }

  /** An owner row occurs once, is its voter's only one and its receipt's only one, and exactly one
      live row carries that receipt, with the same version. */
  ghost predicate Matched(d: Db, o: OwnerRow)
  {
    && d.owners[o] == 1
    && (forall x :: x in d.owners && OwnedBy(o.election, o.cert)(x) ==> x == o)
    && (forall x :: x in d.owners && OwnerWith(o.election, o.hash)(x) ==> x == o)
    && |Filter(d.ballots, LiveHash(o.election, o.hash))| == 1
    && (forall r :: r in d.ballots && LiveHash(o.election, o.hash)(r) ==> r.version == o.version)
  }

  /** A live row is some voter's. */
  ghost predicate IsOwned(d: Db, r: BallotRow)
  {
    exists o :: o in d.owners && o.election == r.election && o.hash == r.hash && o.version == r.version
  }

  /** Owner rows and live ballot rows are matched one to one. */
  lemma {:induction false} OwnersMatchLive(log: seq<Vote>, d: Db)
    requires Holds(log, d) && HashesUnique(log)
    ensures forall o :: o in d.owners ==> Matched(d, o)
    ensures forall r :: r in d.ballots && !r.superseded ==> IsOwned(d, r)
  {
    forall o | o in d.owners
      ensures Matched(d, o)
    {
      OwnerMatches(log, d, o);
      OwnerAlone(log, d, o);
    }
    forall r | r in d.ballots && !r.superseded
      ensures IsOwned(d, r)
    {
      assert r in Rows(log);
      var j :| 0 <= j < |log| && Rows(log)[j] == r;
      assert OwnerOf(log, j) in Owners(log);
      assert OwnerOf(log, j) in d.owners;
    }
  }

  /** No other owner row has the receipt. */
  lemma OwnerAlone(log: seq<Vote>, d: Db, o: OwnerRow)
    requires HoldsVoters(log, d) && HashesUnique(log) && o in d.owners
    ensures forall x :: x in d.owners && OwnerWith(o.election, o.hash)(x) ==> x == o
  {
    forall x | x in d.owners && OwnerWith(o.election, o.hash)(x)
      ensures x == o
    {
      OwnerMeans(log, o);
      OwnerMeans(log, x);
      OnlyThatReceipt(log, LastOf(log, o.election, o.cert).value, LastOf(log, x.election, x.cert).value);
    }
  }

  lemma {:induction false} OwnerMatches(log: seq<Vote>, d: Db, o: OwnerRow)
    requires Holds(log, d) && HashesUnique(log) && o in d.owners
    ensures d.owners[o] == 1
    ensures forall o' :: o' in d.owners && OwnedBy(o.election, o.cert)(o') ==> o' == o
    ensures |Filter(d.ballots, LiveHash(o.election, o.hash))| == 1
    ensures forall r :: r in d.ballots && LiveHash(o.election, o.hash)(r) ==> r.version == o.version
  {
    OwnerMeans(log, o);
    var p := LastOf(log, o.election, o.cert).value;
    LiveIsLast(log, p);
    forall o' | o' in d.owners && OwnedBy(o.election, o.cert)(o')
      ensures o' == o
    {
      OwnerMeans(log, o');
    }
    forall j: nat
      ensures j in {p} <==> j < |log| && LiveHash(o.election, o.hash)(Rows(log)[j])
    {
      if j < |log| && log[j].election == log[p].election && log[j].hash == log[p].hash {
        OnlyThatReceipt(log, p, j);
      }
    }
    CountMatching(Rows(log), LiveHash(o.election, o.hash), {p});
    forall r | r in d.ballots && LiveHash(o.election, o.hash)(r)
      ensures r.version == o.version
    {
      assert r in Rows(log);
      var j :| 0 <= j < |log| && Rows(log)[j] == r;
      assert j in {p};
    }
  }

  /** Every ballot row has its own nonce row, although superseding deletes and reinserts rows; and
      nonce rows are single exactly when the log repeats no nonce. */
  lemma {:induction false} NoncesMatchBallots(log: seq<Vote>, d: Db, id: string)
    requires Holds(log, d)
    ensures |Filter(d.ballots, BallotIn(id))| == |Filter(d.nonces, NonceIn(id))|
    ensures Once(d.nonces) <==> NoncesUnique(log)
  {
    var here := set j: nat | j < |log| && log[j].election == id;
    CountMatching(Rows(log), BallotIn(id), here);
    CountMatching(Nonces(log), NonceIn(id), here);
    if NoncesUnique(log) {
      UniqueOnce(log);
    }
    if Once(d.nonces) {
      OnceUnique(log);
    }
  }

  lemma UniqueOnce(log: seq<Vote>)
    requires NoncesUnique(log)
    ensures Once(multiset(Nonces(log)))
  {
    var rows := Nonces(log);
    forall r | r in multiset(rows)
      ensures multiset(rows)[r] == 1
    {
      assert r in rows;
      var i :| 0 <= i < |rows| && rows[i] == r;
      forall j | 0 <= j < |rows| && j != i
        ensures rows[j] != rows[i]
      {
        if j < i && log[j].election == log[i].election { assert log[j].nonce != log[i].nonce; }
        if i < j && log[j].election == log[i].election { assert log[i].nonce != log[j].nonce; }
      }
      OnceOnly(rows, i);
    }
  }

  lemma OnceUnique(log: seq<Vote>)
    requires Once(multiset(Nonces(log)))
    ensures NoncesUnique(log)
  {
    var rows := Nonces(log);
    forall i, j | 0 <= i < j < |log| && log[i].election == log[j].election
      ensures log[i].nonce != log[j].nonce
    {
      TwoOf(rows, i, j);
    }
  }

  // ---- versions, on the tables

  function VersionIs(id: string, k: int): BallotRow -> bool { (r: BallotRow) => r.election == id && r.version == k }

  /** Ballot rows name no voter, but versions run from 1 without a gap: an election has as many
      ballot rows of version k as it has owners whose version is k or more. */
  lemma {:induction false} VersionRows(log: seq<Vote>, d: Db, id: string, k: int)
    requires Holds(log, d)
    ensures |Filter(d.ballots, VersionIs(id, k))| == if k < 1 then 0 else |Filter(d.owners, Reached(id, k))|
  {
    var rows := Rows(log);
    var here := set j: nat | j < |log| && VersionIs(id, k)(rows[j]);
    CountMatching(rows, VersionIs(id, k), here);
    if k < 1 {
      assert here == {};
    } else {
      VersionsNamed(log, id, k, here);
      OwnersReached(log, d, id, k);
    }
  }

  lemma {:induction false} VersionsNamed(log: seq<Vote>, id: string, k: nat, here: set<nat>)
    requires k >= 1 && forall j :: j in here <==> 0 <= j < |log| && log[j].election == id && Rank(log, j) == k
    ensures |here| == |Reachers(log, id, k)|
  {
    forall j | j in here
      ensures log[j].voter in Reachers(log, id, k)
    {
      VersionsRunUp(log, j);
      CountNoLast(log, id, log[j].voter);
    }
    forall i, j | i in here && j in here && i != j
      ensures log[i].voter != log[j].voter
    {
      if log[i].voter == log[j].voter {
        VersionsRunUp(log, i);
        var at := VersionAt(log, id, log[i].voter, k);
      }
    }
    forall v | v in Reachers(log, id, k)
      ensures exists j :: j in here && log[j].voter == v
    {
      var j := VersionAt(log, id, v, k);
      assert j in here;
    }
    NamesCount(here, log, Reachers(log, id, k));
  }

  // ---- every reachable store

  /** In every store of a run in which no ballot superseded more than one, versions run from 1 without a
      gap, and there are as many nonce rows as ballot rows, each once. */
  lemma ReachableRows(issue: (string, int) -> string, ds: seq<Db>, evs: seq<Event>, i: nat, id: string, k: int)
    requires IsRun(issue, ds, evs) && AllNumbered(ds, evs) && AllAlone(issue, ds, evs) && ds[0] == EmptyDb
    requires i < |ds|
    ensures |Filter(ds[i].ballots, VersionIs(id, k))| == if k < 1 then 0 else |Filter(ds[i].owners, Reached(id, k))|
    ensures |Filter(ds[i].ballots, BallotIn(id))| == |Filter(ds[i].nonces, NonceIn(id))|
    ensures Once(ds[i].nonces)
  {
    var ws := RunRefines(issue, ds, evs);
    assert Pictures(ws, ds, i);
    VersionRows(ws[i].log, ds[i], id, k);
    NoncesMatchBallots(ws[i].log, ds[i], id);
    NoncesOnce(issue, ds, evs, i);
  }

  /** In every store of a run with new receipts, the owner rows match the live ballot rows one to one
      with their versions. */
  lemma ReachableOwners(issue: (string, int) -> string, ds: seq<Db>, evs: seq<Event>, i: nat)
    requires IsRun(issue, ds, evs) && AllNumbered(ds, evs) && AllUnshared(issue, ds, evs) && ds[0] == EmptyDb
    requires i < |ds|
    ensures forall o :: o in ds[i].owners ==> Matched(ds[i], o)
    ensures forall r :: r in ds[i].ballots && !r.superseded ==> IsOwned(ds[i], r)
  {
    var ws := RunDistinct(issue, ds, evs);
    assert Pictures(ws, ds, i);
    OwnersMatchLive(ws[i].log, ds[i]);
  }
}
