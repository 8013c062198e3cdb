/**
 What holds of the tables in every run, whatever receipts were issued: nonces are used once,
 an election's rows change only while it is open, and states only advance.
 */
module Outcomes {
  import opened Options
  import opened Tables
  import opened ElectionId
  import opened Commands
  import opened Brain
  import opened BallotLog
  import opened BallotTally
  import opened Refinement
  import opened Runs

  // ---- one request

  /** One request changes the elections or the ballots, the owners and the nonces, or nothing. */
  lemma StepParts(issue: (string, int) -> string, d: Db, d': Db, req: Request, resp: Response, fellBack: bool)
    returns (hash: string)
    requires Step(issue, d, d', req, resp, fellBack)
    ensures || (d'.ballots == d.ballots && d'.owners == d.owners && d'.nonces == d.nonces)
            || (req.Submit? && Recorded(issue, d, d', req.id, req.ballot, hash))
  {
    hash := "";
    if req.Submit? && d' != d {
      hash :| Recorded(issue, d, d', req.id, req.ballot, hash);
    }
  }

  // ---- nonces

  lemma GateUnseen(e: Election, seen: bool, b: Ballot)
    requires Gate(e, seen, b) == Success
    ensures !seen && e.state == Open
  {
  }

  /** A recorded ballot's nonce was not stored before. */
  lemma NonceNew(issue: (string, int) -> string, d: Db, d': Db, id: string, b: Ballot, hash: string)
    requires Recorded(issue, d, d', id, b, hash)
    ensures NonceRow(id, b.nonce) !in d.nonces && d'.nonces == d.nonces + multiset{NonceRow(id, b.nonce)}
  {
    var rd :| RecordedBy(issue, d, d', id, b, hash, rd);
    NonceNewBy(issue, d, d', id, b, hash, rd);
  }

  lemma NonceNewBy(issue: (string, int) -> string, d: Db, d': Db, id: string, b: Ballot, hash: string, rd: Reading)
    requires RecordedBy(issue, d, d', id, b, hash, rd)
    ensures NonceRow(id, b.nonce) !in d.nonces && d'.nonces == d.nonces + multiset{NonceRow(id, b.nonce)}
  {
    GateUnseen(rd.election, NonceRow(id, b.nonce) in d.nonces, b);
  }

  ghost predicate Once(nonces: multiset<NonceRow>) { forall r :: nonces[r] <= 1 }

  lemma OnceGrows(nonces: multiset<NonceRow>, n: NonceRow)
    requires n !in nonces
    ensures nonces <= nonces + multiset{n} && (Once(nonces) ==> Once(nonces + multiset{n}))
  {
  }

  lemma StepNonces(issue: (string, int) -> string, d: Db, d': Db, req: Request, resp: Response, fellBack: bool)
    requires Step(issue, d, d', req, resp, fellBack)
    ensures d.nonces <= d'.nonces
    ensures Once(d.nonces) ==> Once(d'.nonces)
  {
    var hash := StepParts(issue, d, d', req, resp, fellBack);
    if req.Submit? && Recorded(issue, d, d', req.id, req.ballot, hash) {
      NonceNew(issue, d, d', req.id, req.ballot, hash);
      OnceGrows(d.nonces, NonceRow(req.id, req.ballot.nonce));
    }
  }

  lemma NoncesAt(issue: (string, int) -> string, ds: seq<Db>, evs: seq<Event>, i: nat)
    requires IsRun(issue, ds, evs) && i < |evs|
    ensures ds[i].nonces <= ds[i + 1].nonces
    ensures Once(ds[i].nonces) ==> Once(ds[i + 1].nonces)
  {
    assert Took(issue, ds, evs, i);
    StepNonces(issue, ds[i], ds[i + 1], evs[i].req, evs[i].resp, evs[i].fellBack);
  }

  /** In every run every nonce of an election is stored at most once. */
  lemma {:induction false} NoncesOnce(issue: (string, int) -> string, ds: seq<Db>, evs: seq<Event>, i: nat)
    requires IsRun(issue, ds, evs) && ds[0] == EmptyDb && i < |ds|
    ensures Once(ds[i].nonces)
  {
    if i > 0 {
      NoncesOnce(issue, ds, evs, i - 1);
      NoncesAt(issue, ds, evs, i - 1);
    }
  }

  lemma {:induction false} NoncesKept(issue: (string, int) -> string, ds: seq<Db>, evs: seq<Event>, i: nat, j: nat)
    requires IsRun(issue, ds, evs) && i <= j < |ds|
    ensures ds[i].nonces <= ds[j].nonces
  {
    if i < j {
      NoncesKept(issue, ds, evs, i, j - 1);
      NoncesAt(issue, ds, evs, j - 1);
    }
  }

  /** A submission was recorded: the voter was told so, or the store moved. */
  ghost predicate Accepted(ds: seq<Db>, evs: seq<Event>, i: nat)
    requires |ds| == |evs| + 1 && i < |evs|
  {
    evs[i].req.Submit? && (evs[i].resp.status == Success || ds[i + 1] != ds[i])
  }

  lemma AcceptedRecords(issue: (string, int) -> string, ds: seq<Db>, evs: seq<Event>, i: nat) returns (hash: string)
    requires IsRun(issue, ds, evs) && i < |evs| && Accepted(ds, evs, i)
    ensures Recorded(issue, ds[i], ds[i + 1], evs[i].req.id, evs[i].req.ballot, hash)
  {
    assert Took(issue, ds, evs, i);
    hash :| Recorded(issue, ds[i], ds[i + 1], evs[i].req.id, evs[i].req.ballot, hash);
  }

  /** An accepted ballot's nonce is stored by it and was not before. */
  lemma AcceptedNonce(issue: (string, int) -> string, ds: seq<Db>, evs: seq<Event>, i: nat)
    requires IsRun(issue, ds, evs) && i < |evs| && Accepted(ds, evs, i)
    ensures var n := NonceRow(evs[i].req.id, evs[i].req.ballot.nonce);
            n !in ds[i].nonces && n in ds[i + 1].nonces
  {
    var hash := AcceptedRecords(issue, ds, evs, i);
    NonceNew(issue, ds[i], ds[i + 1], evs[i].req.id, evs[i].req.ballot, hash);
  }

  /** In every run a nonce belongs to at most one accepted ballot of an election, whoever sends it. */
  lemma ReplayRefused(issue: (string, int) -> string, ds: seq<Db>, evs: seq<Event>, i: nat, j: nat)
    requires IsRun(issue, ds, evs) && i < j < |evs| && Accepted(ds, evs, i) && evs[j].req.Submit?
    requires evs[j].req.id == evs[i].req.id && evs[j].req.ballot.nonce == evs[i].req.ballot.nonce
    ensures evs[j].resp.status != Success && ds[j + 1] == ds[j]
  {
    AcceptedNonce(issue, ds, evs, i);
    NoncesKept(issue, ds, evs, i + 1, j);
    if Accepted(ds, evs, j) {
      AcceptedNonce(issue, ds, evs, j);
    }
  }

  // ---- rows change only while their election is open

  function BallotIn(id: string): BallotRow -> bool { (r: BallotRow) => r.election == id }
  function OwnerIn(id: string): OwnerRow -> bool { (r: OwnerRow) => r.election == id }
  function NonceIn(id: string): NonceRow -> bool { (r: NonceRow) => r.election == id }

  /** The election's ballot, owner and nonce rows are the same. */
  ghost predicate SameRows(d: Db, d': Db, id: string)
  {
    && Filter(d'.ballots, BallotIn(id)) == Filter(d.ballots, BallotIn(id))
    && Filter(d'.owners, OwnerIn(id)) == Filter(d.owners, OwnerIn(id))
    && Filter(d'.nonces, NonceIn(id)) == Filter(d.nonces, NonceIn(id))
  }

  ghost predicate IsOpen(d: Db, id: string)
  {
    exists r :: r in d.elections && r.id == id && r.state == Open
  }

  lemma RecordedOpen(issue: (string, int) -> string, d: Db, d': Db, id: string, b: Ballot, hash: string)
    requires Recorded(issue, d, d', id, b, hash)
    ensures IsOpen(d, id)
  {
    var rd :| RecordedBy(issue, d, d', id, b, hash, rd);
    GateUnseen(rd.election, NonceRow(id, b.nonce) in d.nonces, b);
  }

  lemma BallotsElsewhere(rows: multiset<BallotRow>, added: BallotRow, replaced: BallotRow, other: string)
    requires added.election != other
    ensures Filter(rows + multiset{added}, BallotIn(other)) == Filter(rows, BallotIn(other))
    ensures replaced.election != other ==>
              var all := rows + multiset{added};
              Filter(all - Filter(all, HashIs(replaced.election, replaced.hash)) + multiset{replaced.(superseded := true)},
                     BallotIn(other))
              == Filter(rows, BallotIn(other))
  {
  }

  lemma OwnersElsewhere(owners: multiset<OwnerRow>, o: OwnerRow, other: string)
    requires o.election != other
    ensures Filter(owners - Filter(owners, OwnedBy(o.election, o.cert)) + multiset{o}, OwnerIn(other))
            == Filter(owners, OwnerIn(other))
  {
  }

  lemma NoncesElsewhere(nonces: multiset<NonceRow>, n: NonceRow, other: string)
    requires n.election != other
    ensures Filter(nonces + multiset{n}, NonceIn(other)) == Filter(nonces, NonceIn(other))
  {
  }

  /** A ballot of one election leaves the rows of the others alone. */
  lemma OthersUntouched(issue: (string, int) -> string, d: Db, d': Db, id: string, b: Ballot, hash: string, other: string)
    requires Recorded(issue, d, d', id, b, hash) && other != id
    ensures SameRows(d, d', other)
  {
    var rd :| RecordedBy(issue, d, d', id, b, hash, rd);
    AfterElsewhere(d, id, b, hash, rd.prior, rd.replaced, other);
  }

  lemma AfterElsewhere(d: Db, id: string, b: Ballot, hash: string, prior: Option<OwnerRow>, replaced: BallotRow,
                       other: string)
    requires other != id && (prior.Some? ==> replaced.election == id)
    ensures SameRows(d, AfterBallot(d, id, b, hash, prior, replaced), other)
  {
    AfterFields(d, id, b, hash, prior, replaced);
    BallotsElsewhere(d.ballots, NewBallotRow(id, b, hash, prior), replaced, other);
    OwnersElsewhere(d.owners, OwnerRow(id, b.cert, hash, NewVersion(prior)), other);
    NoncesElsewhere(d.nonces, NonceRow(id, b.nonce), other);
  }

  /** One request changes the ballot, owner or nonce rows of an election only if its row says OPEN. */
  lemma ChangedWhileOpen(issue: (string, int) -> string, d: Db, d': Db, req: Request, resp: Response, fellBack: bool,
                         id: string)
    requires Step(issue, d, d', req, resp, fellBack)
    ensures SameRows(d, d', id) || (IsOpen(d, id) && req.Submit? && req.id == id)
  {
    var hash := StepParts(issue, d, d', req, resp, fellBack);
    if req.Submit? && Recorded(issue, d, d', req.id, req.ballot, hash) {
      if req.id == id {
        RecordedOpen(issue, d, d', id, req.ballot, hash);
      } else {
        OthersUntouched(issue, d, d', req.id, req.ballot, hash, id);
      }
    }
  }

  lemma ChangedAt(issue: (string, int) -> string, ds: seq<Db>, evs: seq<Event>, i: nat, id: string)
    requires IsRun(issue, ds, evs) && i < |evs|
    ensures SameRows(ds[i], ds[i + 1], id) || IsOpen(ds[i], id)
  {
    assert Took(issue, ds, evs, i);
    ChangedWhileOpen(issue, ds[i], ds[i + 1], evs[i].req, evs[i].resp, evs[i].fellBack, id);
  }

  // ---- one row for each election

  ghost predicate Filed(d: Db) { forall r :: r in d.elections ==> r.number == IdNumber(r.id) }

  lemma StepFiled(issue: (string, int) -> string, d: Db, d': Db, req: Request, resp: Response, fellBack: bool)
    requires Step(issue, d, d', req, resp, fellBack) && Filed(d)
    ensures Filed(d')
  {
    if d' != d && req.CreateElection? {
      FiledCreated(d, resp.body.id, req.config);
    } else if d' != d && req.Advance? {
      var row :| MovesRow(d, d', req.id, row, req.to);
      FiledMoved(d, row, req.to);
    } else {
      FiledKept(d, d');
    }
  }

  lemma FiledCreated(d: Db, id: string, c: Config)
    requires Filed(d)
    ensures Filed(WithElection(d, id, c))
  {
  }

  lemma FiledMoved(d: Db, row: ElectionRow, to: State)
    requires Filed(d) && row in d.elections
    ensures Filed(WithState(d, row, to))
  {
  }

  lemma FiledKept(d: Db, d': Db)
    requires Filed(d) && d'.elections == d.elections
    ensures Filed(d')
  {
  }

  lemma FiledAt(issue: (string, int) -> string, ds: seq<Db>, evs: seq<Event>, i: nat)
    requires IsRun(issue, ds, evs) && i < |evs| && Filed(ds[i])
    ensures Filed(ds[i + 1])
  {
    assert Took(issue, ds, evs, i);
    StepFiled(issue, ds[i], ds[i + 1], evs[i].req, evs[i].resp, evs[i].fellBack);
  }

  lemma {:induction false} RunFiled(issue: (string, int) -> string, ds: seq<Db>, evs: seq<Event>, i: nat)
    requires IsRun(issue, ds, evs) && ds[0] == EmptyDb && i < |ds|
    ensures Filed(ds[i])
  {
    if i > 0 {
      RunFiled(issue, ds, evs, i - 1);
      FiledAt(issue, ds, evs, i - 1);
    }
  }

  /** Every election has one row. */
  ghost predicate OneRowEach(d: Db)
  {
    forall r, x :: r in d.elections && x in d.elections && r.id == x.id ==> r == x && d.elections[r] == 1
  }

  lemma TracksOneRow(w: World, d: Db)
    requires ElectionsMatch(w, d)
    ensures OneRowEach(d)
  {
    forall r, x | r in d.elections && x in d.elections && r.id == x.id
      ensures r == x && d.elections[r] == 1
    {
      RowRead(w, d, r);
      RowRead(w, d, x);
    }
  }

  lemma CreatedFree(d: Db, d': Db, c: Config, desired: string, fellBack: bool, id: string)
    requires Created(d, d', c, desired, fellBack, id) && OneRowEach(d')
    ensures Unused(d, id)
  {
    forall r | r in d.elections
      ensures r.id != id
    {
      assert NewRow(id, c) in d'.elections && r in d'.elections;
    }
  }

  /** If the store keeps one row for each election, the creation's id was free. */
  lemma OneRowNumbered(issue: (string, int) -> string, d: Db, d': Db, req: Request, resp: Response, fellBack: bool)
    requires Step(issue, d, d', req, resp, fellBack) && Filed(d) && OneRowEach(d')
    ensures Numbered(d, d', req, fellBack)
  {
    if req.CreateElection? && req.desired == "" && d' != d {
      CreatedFree(d, d', req.config, "", fellBack, resp.body.id);
      if !fellBack {
        var max :| IsMaxNumber(d, max) && resp.body.id == IdOf(NextNumber(max));
        AllocatedFree(d, max);
      }
    }
  }

  /** Every store of a run has one row for each election if and only if every allocated id was free. */
  lemma OneRowExactly(issue: (string, int) -> string, ds: seq<Db>, evs: seq<Event>)
    requires IsRun(issue, ds, evs) && ds[0] == EmptyDb
    ensures AllNumbered(ds, evs) <==> forall i :: 0 <= i < |ds| ==> OneRowEach(ds[i])
  {
    if AllNumbered(ds, evs) {
      var ws := RunTracks(issue, ds, evs);
      forall i | 0 <= i < |ds|
        ensures OneRowEach(ds[i])
      {
        assert TrackedAt(ws, ds, i);
        TracksOneRow(ws[i], ds[i]);
      }
    }
    if forall i :: 0 <= i < |ds| ==> OneRowEach(ds[i]) {
      forall i | 0 <= i < |evs|
        ensures Numbered(ds[i], ds[i + 1], evs[i].req, evs[i].fellBack)
      {
        assert Took(issue, ds, evs, i);
        RunFiled(issue, ds, evs, i);
        OneRowNumbered(issue, ds[i], ds[i + 1], evs[i].req, evs[i].resp, evs[i].fellBack);
      }
    }
  }

  // ---- states

  /** From any store of a run to any later one, an election's row stays, its settings do not change
      and its state only advances. */
  lemma StatesAdvance(issue: (string, int) -> string, ds: seq<Db>, evs: seq<Event>, i: nat, j: nat, r: ElectionRow)
    returns (x: ElectionRow)
    requires IsRun(issue, ds, evs) && AllNumbered(ds, evs) && ds[0] == EmptyDb && i <= j < |ds|
    requires r in ds[i].elections
    ensures x in ds[j].elections && x == r.(state := x.state) && Stage(r.state) <= Stage(x.state)
    ensures OneRowEach(ds[i])
  {
    var ws := RunTracks(issue, ds, evs);
    assert TrackedAt(ws, ds, i) && TrackedAt(ws, ds, j);
    RowRead(ws[i], ds[i], r);
    RunLater(ws, evs, i, j);
    TracksOneRow(ws[i], ds[i]);
    x := InfoRow(r.id, ws[j].elections[r.id]);
    assert x in ds[j].elections;
  }

  lemma StaysClosed(issue: (string, int) -> string, ws: seq<World>, ds: seq<Db>, evs: seq<Event>, i: nat, j: nat,
                    id: string)
    requires Shadows(issue, ws, ds, evs) && i <= j < |ds|
    requires id in ws[i].elections && Stage(ws[i].elections[id].state) >= 2
    ensures !IsOpen(ds[j], id)
  {
    RunLater(ws, evs, i, j);
    assert TrackedAt(ws, ds, j);
    forall r | r in ds[j].elections && r.id == id
      ensures r.state != Open
    {
      RowRead(ws[j], ds[j], r);
    }
  }

  lemma SameTrans(a: Db, b: Db, c: Db, id: string)
    requires SameRows(a, b, id) && SameRows(b, c, id)
    ensures SameRows(a, c, id)
  {
  }

  lemma StaysAt(issue: (string, int) -> string, ws: seq<World>, ds: seq<Db>, evs: seq<Event>, i: nat, j: nat, id: string)
    requires IsRun(issue, ds, evs) && Shadows(issue, ws, ds, evs) && i <= j < |evs|
    requires id in ws[i].elections && Stage(ws[i].elections[id].state) >= 2
    ensures SameRows(ds[j], ds[j + 1], id)
  {
    StaysClosed(issue, ws, ds, evs, i, j, id);
    ChangedAt(issue, ds, evs, j, id);
  }

  lemma {:induction false} RowsStay(issue: (string, int) -> string, ws: seq<World>, ds: seq<Db>, evs: seq<Event>,
                                    i: nat, j: nat, id: string)
    requires IsRun(issue, ds, evs) && Shadows(issue, ws, ds, evs) && i <= j < |ds|
    requires id in ws[i].elections && Stage(ws[i].elections[id].state) >= 2
    ensures SameRows(ds[i], ds[j], id)
  {
    if i < j {
      RowsStay(issue, ws, ds, evs, i, j - 1, id);
      StaysAt(issue, ws, ds, evs, i, j - 1, id);
      SameTrans(ds[i], ds[j - 1], ds[j], id);
    }
  }

  /** Once an election is closed its ballot, owner and nonce rows never change again. */
  lemma RowsFrozen(issue: (string, int) -> string, ds: seq<Db>, evs: seq<Event>, i: nat, j: nat, r: ElectionRow)
    requires IsRun(issue, ds, evs) && AllNumbered(ds, evs) && ds[0] == EmptyDb && i <= j < |ds|
    requires r in ds[i].elections && (r.state == Closed || r.state == Published)
    ensures SameRows(ds[i], ds[j], r.id)
  {
    var ws := RunTracks(issue, ds, evs);
    assert TrackedAt(ws, ds, i);
    RowRead(ws[i], ds[i], r);
    RowsStay(issue, ws, ds, evs, i, j, r.id);
  }
}
