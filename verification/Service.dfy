/**
 What a working store is good for: when every exchange was clean, the daemon answers every
 request as the plain world rules.
 */
module Service {
  import opened Options
  import opened Tables
  import opened ElectionId
  import opened Commands
  import opened Brain
  import opened BallotLog
  import opened BallotTally
  import opened Refinement
  import opened Runs
  import opened Outcomes

  // ---- a superseded receipt always finds its row

  /** Replacing the rows of one receipt leaves every receipt that was there. */
  lemma HashStays(all: multiset<BallotRow>, replaced: BallotRow, r: BallotRow)
    requires r in all
    ensures var left := all - Filter(all, HashIs(replaced.election, replaced.hash))
                        + multiset{replaced.(superseded := true)};
            exists x :: x in left && HashIs(r.election, r.hash)(x)
  {
    var left := all - Filter(all, HashIs(replaced.election, replaced.hash)) + multiset{replaced.(superseded := true)};
    if HashIs(replaced.election, replaced.hash)(r) {
      assert replaced.(superseded := true) in left;
    } else {
      assert r in left;
    }
  }

  /** A ballot takes no receipt off the ballot rows, and puts its own on. */
  lemma HashAfter(d: Db, id: string, b: Ballot, hash: string, prior: Option<OwnerRow>, replaced: BallotRow, r: BallotRow)
    requires r in d.ballots + multiset{NewBallotRow(id, b, hash, prior)}
    ensures HasHash(AfterBallot(d, id, b, hash, prior, replaced), r.election, r.hash)
  {
    var all := d.ballots + multiset{NewBallotRow(id, b, hash, prior)};
    AfterFields(d, id, b, hash, prior, replaced);
    if prior.Some? {
      HashStays(all, replaced, r);
    } else {
      assert HashIs(r.election, r.hash)(r);
    }
  }

  /** The invariant behind an update: every owner's receipt is on some ballot row, shared or not. */
  lemma BackedAfter(issue: (string, int) -> string, d: Db, d': Db, id: string, b: Ballot, hash: string)
    requires Recorded(issue, d, d', id, b, hash) && OwnersBacked(d)
    ensures OwnersBacked(d')
  {
    var rd :| RecordedBy(issue, d, d', id, b, hash, rd);
    AfterFields(d, id, b, hash, rd.prior, rd.replaced);
    forall o | o in d'.owners
      ensures HasHash(d', o.election, o.hash)
    {
      var row := NewBallotRow(id, b, hash, rd.prior);
      if o in d.owners {
        assert HasHash(d, o.election, o.hash);
        row :| row in d.ballots && HashIs(o.election, o.hash)(row);
      }
      HashAfter(d, id, b, hash, rd.prior, rd.replaced, row);
    }
  }

  lemma BackedKept(d: Db, d': Db)
    requires OwnersBacked(d) && d'.ballots == d.ballots && d'.owners == d.owners
    ensures OwnersBacked(d')
  {
    forall o | o in d'.owners
      ensures HasHash(d', o.election, o.hash)
    {
      assert HasHash(d, o.election, o.hash);
    }
  }

  lemma BackedAt(issue: (string, int) -> string, ds: seq<Db>, evs: seq<Event>, i: nat)
    requires IsRun(issue, ds, evs) && i < |evs| && OwnersBacked(ds[i])
    ensures OwnersBacked(ds[i + 1])
  {
    assert Took(issue, ds, evs, i);
    var hash := StepParts(issue, ds[i], ds[i + 1], evs[i].req, evs[i].resp, evs[i].fellBack);
    if evs[i].req.Submit? && Recorded(issue, ds[i], ds[i + 1], evs[i].req.id, evs[i].req.ballot, hash) {
      BackedAfter(issue, ds[i], ds[i + 1], evs[i].req.id, evs[i].req.ballot, hash);
    } else {
      BackedKept(ds[i], ds[i + 1]);
    }
  }

  /** In every run every owner row's receipt is on some ballot row, so an update always finds what it
      supersedes. */
  lemma {:induction false} AlwaysBacked(issue: (string, int) -> string, ds: seq<Db>, evs: seq<Event>, i: nat)
    requires IsRun(issue, ds, evs) && ds[0] == EmptyDb && i < |ds|
    ensures OwnersBacked(ds[i])
  {
    if i > 0 {
      AlwaysBacked(issue, ds, evs, i - 1);
      BackedAt(issue, ds, evs, i - 1);
    }
  }

  // ---- clean exchanges

  /** Every stored number leaves room for a next one, or at least for the one it wraps to. */
  ghost predicate HasRoom(d: Db)
  {
    (forall r :: r in d.elections ==> r.number < INT_MAX) || NumbersOk(d, false)
  }

  /** With every number allocated from an answer and room for a next one, every allocated id was free. */
  lemma AnsweredNumbers(ds: seq<Db>, evs: seq<Event>)
    requires |ds| == |evs| + 1 && forall i :: 0 <= i < |evs| ==> !evs[i].fellBack && HasRoom(ds[i])
    ensures AllNumbered(ds, evs)
  {
  }

  /** A new election's texts hold nothing the store cannot take. */
  predicate SafeRequest(req: Request) { req.CreateElection? ==> SafeTexts(req.desired, req.config) }

  ghost predicate RuledAt(ws: seq<World>, evs: seq<Event>, i: nat)
  {
    i < |ws| && i < |evs| && evs[i].resp.status == Ruling(ws[i], evs[i].req)
  }

  lemma ServedRuled(issue: (string, int) -> string, ws: seq<World>, ds: seq<Db>, evs: seq<Event>, i: nat)
    requires IsRun(issue, ds, evs) && ds[0] == EmptyDb && Shadows(issue, ws, ds, evs) && i < |evs|
    requires ServedAt(ds, evs, i) && SafeRequest(evs[i].req)
    ensures Answered(evs[i].resp.status) && (!evs[i].req.Check? ==> RuledAt(ws, evs, i))
  {
    AlwaysBacked(issue, ds, evs, i);
    assert Moved(ws, evs, i);
  }

  /** A run that was served throughout, as one is when all exchanges were clean, answers every request
      but a lookup as the plain world rules, whatever receipts were issued. */
  lemma CleanRun(issue: (string, int) -> string, ds: seq<Db>, evs: seq<Event>) returns (ws: seq<World>)
    requires IsRun(issue, ds, evs) && ds[0] == EmptyDb && AllServed(ds, evs)
    requires forall i :: 0 <= i < |evs| ==> HasRoom(ds[i]) && SafeRequest(evs[i].req)
    ensures Shadows(issue, ws, ds, evs)
    ensures forall i :: 0 <= i < |evs| ==> Answered(evs[i].resp.status) && (!evs[i].req.Check? ==> RuledAt(ws, evs, i))
  {
    forall i | 0 <= i < |evs|
      ensures !evs[i].fellBack
    {
      assert ServedAt(ds, evs, i);
    }
    AnsweredNumbers(ds, evs);
    ws := RunTracks(issue, ds, evs);
    forall i | 0 <= i < |evs|
      ensures Answered(evs[i].resp.status) && (!evs[i].req.Check? ==> RuledAt(ws, evs, i))
    {
      assert ServedAt(ds, evs, i);
      ServedRuled(issue, ws, ds, evs, i);
    }
  }

  /** And if no ballot superseded more than one, lookups too. */
  lemma CleanLookup(issue: (string, int) -> string, ds: seq<Db>, evs: seq<Event>) returns (ws: seq<World>)
    requires IsRun(issue, ds, evs) && ds[0] == EmptyDb && AllServed(ds, evs) && AllAlone(issue, ds, evs)
    requires forall i :: 0 <= i < |evs| ==> HasRoom(ds[i]) && SafeRequest(evs[i].req)
    ensures Shows(ws, ds, evs) && forall i :: 0 <= i < |evs| ==> RuledAt(ws, evs, i)
  {
    var tracked := CleanRun(issue, ds, evs);
    forall i | 0 <= i < |evs|
      ensures !evs[i].fellBack
    {
      assert ServedAt(ds, evs, i);
    }
    AnsweredNumbers(ds, evs);
    ws := RunRefines(issue, ds, evs);
    forall i | 0 <= i < |evs|
      ensures RuledAt(ws, evs, i)
    {
      assert ServedAt(ds, evs, i);
      ServedRuled(issue, ws, ds, evs, i);
      assert CountsRight(ws[i], evs[i].req, evs[i].resp);
    }
  }
}
