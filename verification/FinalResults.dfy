/**
 Results in every run, whatever receipts were issued: no election counts more ballots than it
 has voters, and what was published stays as it was.
 */
module FinalResults {
  import opened Options
  import opened Tables
  import opened Commands
  import opened Brain
  import opened BallotLog
  import opened BallotTally
  import opened Refinement
  import opened Runs
  import opened Outcomes

  // ---- no more live rows than voters

  function OwnerWith(id: string, hash: string): OwnerRow -> bool
  {
    (r: OwnerRow) => r.election == id && r.hash == hash
  }

  /** A receipt has no more live rows than owners. */
  ghost predicate LiveBound(d: Db)
  {
    forall id, hash :: Bounded(d, id, hash)
  }

  ghost predicate Bounded(d: Db, id: string, hash: string)
  {
    |Filter(d.ballots, LiveHash(id, hash))| <= |Filter(d.owners, OwnerWith(id, hash))|
  }

  /** The live rows with a receipt after a ballot: none if it is the superseded one, else the same and the new row. */
  lemma LiveAfter(rows: multiset<BallotRow>, added: BallotRow, replaced: Option<BallotRow>, id: string, hash: string)
    requires !added.superseded
    ensures var all := rows + multiset{added};
            var left := match replaced
                        case None => all
                        case Some(r) => all - Filter(all, HashIs(r.election, r.hash)) + multiset{r.(superseded := true)};
            if replaced.Some? && HashIs(id, hash)(replaced.value) then Filter(left, LiveHash(id, hash)) == multiset{}
            else Filter(left, LiveHash(id, hash))
                 == Filter(rows, LiveHash(id, hash)) + if HashIs(id, hash)(added) then multiset{added} else multiset{}
  {
  }

  /** The owners of a receipt after a ballot, if the voter did not own it before: the same and the voter. */
  lemma OwnersAfterBallot(owners: multiset<OwnerRow>, o: OwnerRow, id: string, hash: string)
    requires forall x :: x in owners && OwnedBy(o.election, o.cert)(x) ==> !OwnerWith(id, hash)(x)
    ensures Filter(owners - Filter(owners, OwnedBy(o.election, o.cert)) + multiset{o}, OwnerWith(id, hash))
            == Filter(owners, OwnerWith(id, hash)) + if OwnerWith(id, hash)(o) then multiset{o} else multiset{}
  {
  }

  lemma OneOwner(log: seq<Vote>, d: Db, o: OwnerRow, x: OwnerRow)
    requires HoldsVoters(log, d) && o in d.owners && x in d.owners && OwnedBy(o.election, o.cert)(x)
    ensures x == o && d.owners[o] == 1
  {
    OwnerMeans(log, o);
    OwnerMeans(log, x);
  }

  lemma BoundedAfter(log: seq<Vote>, d: Db, id: string, b: Ballot, hash: string, prior: Option<OwnerRow>,
                     replaced: BallotRow, at: string, key: string)
    requires HoldsVoters(log, d) && FindsOwner(d, id, b.cert, prior) && Bounded(d, at, key)
    requires prior.Some? ==> HashIs(id, prior.value.hash)(replaced)
    ensures Bounded(AfterBallot(d, id, b, hash, prior, replaced), at, key)
  {
    var owner := OwnerRow(id, b.cert, hash, NewVersion(prior));
    AfterFields(d, id, b, hash, prior, replaced);
    LiveAfter(d.ballots, NewBallotRow(id, b, hash, prior), if prior.Some? then Some(replaced) else None, at, key);
    if !(prior.Some? && HashIs(at, key)(replaced)) {
      forall x | x in d.owners && OwnedBy(id, b.cert)(x)
        ensures !OwnerWith(at, key)(x)
      {
        OneOwner(log, d, prior.value, x);
      }
      OwnersAfterBallot(d.owners, owner, at, key);
    }
  }

  lemma BoundKept(issue: (string, int) -> string, log: seq<Vote>, d: Db, d': Db, id: string, b: Ballot, hash: string)
    requires HoldsVoters(log, d) && LiveBound(d) && Recorded(issue, d, d', id, b, hash)
    ensures LiveBound(d')
  {
    var rd :| RecordedBy(issue, d, d', id, b, hash, rd);
    forall at, key
      ensures Bounded(d', at, key)
    {
      assert Bounded(d, at, key);
      BoundedAfter(log, d, id, b, hash, rd.prior, rd.replaced, at, key);
    }
  }

  lemma BoundAt(issue: (string, int) -> string, ws: seq<World>, ds: seq<Db>, evs: seq<Event>, i: nat)
    requires IsRun(issue, ds, evs) && Shadows(issue, ws, ds, evs) && i < |evs| && LiveBound(ds[i])
    ensures LiveBound(ds[i + 1])
  {
    assert Took(issue, ds, evs, i) && TrackedAt(ws, ds, i);
    var hash := StepParts(issue, ds[i], ds[i + 1], evs[i].req, evs[i].resp, evs[i].fellBack);
    if evs[i].req.Submit? && Recorded(issue, ds[i], ds[i + 1], evs[i].req.id, evs[i].req.ballot, hash) {
      BoundKept(issue, ws[i].log, ds[i], ds[i + 1], evs[i].req.id, evs[i].req.ballot, hash);
    } else {
      BoundSame(ds[i], ds[i + 1]);
    }
  }

  lemma BoundSame(d: Db, d': Db)
    requires LiveBound(d) && d'.ballots == d.ballots && d'.owners == d.owners
    ensures LiveBound(d')
  {
    forall id, hash
      ensures Bounded(d', id, hash)
    {
      assert Bounded(d, id, hash);
    }
  }

  lemma {:induction false} RunBound(issue: (string, int) -> string, ws: seq<World>, ds: seq<Db>, evs: seq<Event>, i: nat)
    requires IsRun(issue, ds, evs) && Shadows(issue, ws, ds, evs) && ds[0] == EmptyDb && i < |ds|
    ensures LiveBound(ds[i])
  {
    if i > 0 {
      RunBound(issue, ws, ds, evs, i - 1);
      BoundAt(issue, ws, ds, evs, i - 1);
    } else {
      forall id, hash
        ensures Bounded(ds[0], id, hash)
      {
        assert Filter(ds[0].ballots, LiveHash(id, hash)) == multiset{};
      }
    }
  }

  function WithHash(hash: string): BallotRow -> bool { (r: BallotRow) => r.hash == hash }
  function OwningHash(hash: string): OwnerRow -> bool { (r: OwnerRow) => r.hash == hash }

  lemma RestFiltered(a: multiset<BallotRow>, b: multiset<OwnerRow>, h: string, k: string)
    requires |Filter(a, WithHash(k))| <= |Filter(b, OwningHash(k))|
    ensures |Filter(a - Filter(a, WithHash(h)), WithHash(k))| <= |Filter(b - Filter(b, OwningHash(h)), OwningHash(k))|
  {
    var a', b' := a - Filter(a, WithHash(h)), b - Filter(b, OwningHash(h));
    if k == h {
      assert Filter(a', WithHash(k)) == multiset{};
    } else {
      assert Filter(a', WithHash(k)) == Filter(a, WithHash(k));
      assert Filter(b', OwningHash(k)) == Filter(b, OwningHash(k));
    }
  }

  /** Counted receipt by receipt, counted in all. */
  lemma {:induction false} ByReceipt(a: multiset<BallotRow>, b: multiset<OwnerRow>)
    requires forall h :: |Filter(a, WithHash(h))| <= |Filter(b, OwningHash(h))|
    ensures |a| <= |b|
    decreases |a|
  {
    if a != multiset{} {
      var r :| r in a;
      var mine, theirs := Filter(a, WithHash(r.hash)), Filter(b, OwningHash(r.hash));
      assert r in mine && mine <= a && theirs <= b;
      assert |a - mine| == |a| - |mine| && |b - theirs| == |b| - |theirs|;
      forall k
        ensures |Filter(a - mine, WithHash(k))| <= |Filter(b - theirs, OwningHash(k))|
      {
        RestFiltered(a, b, r.hash, k);
      }
      ByReceipt(a - mine, b - theirs);
    }
  }

  /** No election has more live rows than owner rows. */
  lemma LiveWithinOwners(d: Db, id: string)
    requires LiveBound(d)
    ensures |Filter(d.ballots, LiveIn(id))| <= |Filter(d.owners, OwnerIn(id))|
  {
    var live, owners := Filter(d.ballots, LiveIn(id)), Filter(d.owners, OwnerIn(id));
    forall h
      ensures |Filter(live, WithHash(h))| <= |Filter(owners, OwningHash(h))|
    {
      assert Bounded(d, id, h);
      assert Filter(live, WithHash(h)) == Filter(d.ballots, LiveHash(id, h));
      assert Filter(owners, OwningHash(h)) == Filter(d.owners, OwnerWith(id, h));
    }
    ByReceipt(live, owners);
  }

  /** Owner rows, one for each name. */
  lemma {:induction false} OwnerNames(rows: set<OwnerRow>, names: set<string>)
    requires forall o :: o in rows ==> o.cert in names
    requires forall o, x :: o in rows && x in rows && o.cert == x.cert ==> o == x
    requires forall v :: v in names ==> exists o :: o in rows && o.cert == v
    ensures |rows| == |names|
  {
    if rows == {} {
      assert names == {};
    } else {
      var o :| o in rows;
      var rows', names' := rows - {o}, names - {o.cert};
      forall v | v in names'
        ensures exists x :: x in rows' && x.cert == v
      {
        var x :| x in rows && x.cert == v;
        assert x in rows';
      }
      OwnerNames(rows', names');
    }
  }

  /** The election's owners with a version of at least k. */
  function Reached(id: string, k: int): OwnerRow -> bool { (r: OwnerRow) => r.election == id && r.version >= k }

  /** The voters with at least k ballots in the election, and at least one. */
  function Reachers(log: seq<Vote>, id: string, k: int): set<string>
  {
    set v | v in Turnout(log, id) && CountOf(log, id, v) >= k
  }

  /** As many owner rows with version k or more as voters with k ballots or more. */
  lemma {:induction false} OwnersReached(log: seq<Vote>, d: Db, id: string, k: int)
    requires HoldsVoters(log, d)
    ensures |Filter(d.owners, Reached(id, k))| == |Reachers(log, id, k)|
  {
    var rows := set o | o in Owners(log) && Reached(id, k)(o);
    var names := Reachers(log, id, k);
    assert Filter(d.owners, Reached(id, k)) == multiset(rows);
    forall o | o in rows
      ensures o.cert in names
    {
      OwnerReaches(log, id, k, o);
    }
    forall o, x | o in rows && x in rows && o.cert == x.cert
      ensures o == x
    {
      OneOwner(log, d, o, x);
    }
    forall v | v in names
      ensures exists o :: o in rows && o.cert == v
    {
      var o := ReacherOwns(log, id, k, v);
    }
    OwnerNames(rows, names);
  }

  lemma OwnerReaches(log: seq<Vote>, id: string, k: int, o: OwnerRow)
    requires o in Owners(log) && Reached(id, k)(o)
    ensures o.cert in Reachers(log, id, k)
  {
    OwnerMeans(log, o);
    LastRank(log, id, o.cert);
    var p := LastOf(log, id, o.cert).value;
    assert log[p].voter in VoterNames(log);
  }

  lemma ReacherOwns(log: seq<Vote>, id: string, k: int, v: string) returns (o: OwnerRow)
    requires v in Reachers(log, id, k)
    ensures o in Owners(log) && Reached(id, k)(o) && o.cert == v
  {
    LastRank(log, id, v);
    o := OwnerOf(log, LastOf(log, id, v).value);
    OwnerMeans(log, o);
  }

  /** In every run, whatever the receipts, an election has no more live rows than voters, and these
      are eligible: nobody is counted twice, and the published list is never cut. */
  lemma NeverOvercounted(issue: (string, int) -> string, ws: seq<World>, ds: seq<Db>, evs: seq<Event>, i: nat, id: string)
    requires IsRun(issue, ds, evs) && Shadows(issue, ws, ds, evs) && ds[0] == EmptyDb && i < |ds|
    requires id in ws[i].elections
    ensures |Filter(ds[i].ballots, LiveIn(id))| <= |Turnout(ws[i].log, id)|
    ensures |Turnout(ws[i].log, id)| <= |ws[i].elections[id].eligible| <= MAX_VOTERS
  {
    RunBound(issue, ws, ds, evs, i);
    LiveWithinOwners(ds[i], id);
    assert TrackedAt(ws, ds, i);
    OwnersTurnout(ws[i].log, ds[i], id);
    TurnoutBound(ws[i], id);
  }

  lemma OwnersTurnout(log: seq<Vote>, d: Db, id: string)
    requires HoldsVoters(log, d)
    ensures |Filter(d.owners, OwnerIn(id))| == |Turnout(log, id)|
  {
    OwnersReached(log, d, id, 0);
    assert Reachers(log, id, 0) == Turnout(log, id);
    forall o | o in d.owners && o.election == id
      ensures o.version >= 0
    {
      OwnerMeans(log, o);
    }
    assert Filter(d.owners, Reached(id, 0)) == Filter(d.owners, OwnerIn(id));
  }

  lemma EligibleCount(w: World, d: Db, id: string)
    requires EligibleMatch(w, d) && id in w.elections
    ensures |Filter(d.eligible, EligibleFor(id))| == |w.elections[id].eligible|
  {
    assert |multiset(EligibleRowsOf(id, w.elections[id].eligible))| == |w.elections[id].eligible|;
  }

  /** In every store of every run an election has at most one live ballot row for each owner row, and at
      most one owner row for each eligible row, whatever receipts were issued. */
  lemma LiveWithinEligible(issue: (string, int) -> string, ds: seq<Db>, evs: seq<Event>, i: nat, r: ElectionRow)
    requires IsRun(issue, ds, evs) && AllNumbered(ds, evs) && ds[0] == EmptyDb && i < |ds| && r in ds[i].elections
    ensures |Filter(ds[i].ballots, LiveIn(r.id))| <= |Filter(ds[i].owners, OwnerIn(r.id))|
    ensures |Filter(ds[i].owners, OwnerIn(r.id))| <= |Filter(ds[i].eligible, EligibleFor(r.id))| <= MAX_VOTERS
  {
    var ws := RunTracks(issue, ds, evs);
    assert TrackedAt(ws, ds, i);
    RowRead(ws[i], ds[i], r);
    NeverOvercounted(issue, ws, ds, evs, i, r.id);
    RunBound(issue, ws, ds, evs, i);
    LiveWithinOwners(ds[i], r.id);
    OwnersTurnout(ws[i].log, ds[i], r.id);
    EligibleCount(ws[i], ds[i], r.id);
  }

  // ---- results are final

  lemma CountsSame(d: Db, d': Db, id: string)
    requires Filter(d'.ballots, BallotIn(id)) == Filter(d.ballots, BallotIn(id))
    ensures Filter(d'.ballots, LiveIn(id)) == Filter(d.ballots, LiveIn(id))
    ensures forall i :: Filter(d'.ballots, LiveFor(id, i)) == Filter(d.ballots, LiveFor(id, i))
  {
    assert forall r :: BallotIn(id)(r) ==> d'.ballots[r] == Filter(d'.ballots, BallotIn(id))[r];
    assert forall r :: BallotIn(id)(r) ==> d.ballots[r] == Filter(d.ballots, BallotIn(id))[r];
  }

  lemma CountsStay(issue: (string, int) -> string, ws: seq<World>, ds: seq<Db>, evs: seq<Event>, i: nat, j: nat,
                   id: string)
    requires IsRun(issue, ds, evs) && Shadows(issue, ws, ds, evs) && ds[0] == EmptyDb && i <= j < |ds|
    requires id in ws[i].elections && Stage(ws[i].elections[id].state) >= 2
    ensures Filter(ds[j].ballots, LiveIn(id)) == Filter(ds[i].ballots, LiveIn(id))
    ensures forall k :: Filter(ds[j].ballots, LiveFor(id, k)) == Filter(ds[i].ballots, LiveFor(id, k))
    ensures |Filter(ds[i].ballots, LiveIn(id))| <= MAX_VOTERS
  {
    RowsStay(issue, ws, ds, evs, i, j, id);
    CountsSame(ds[i], ds[j], id);
    NeverOvercounted(issue, ws, ds, evs, i, id);
  }

  lemma SettingsStay(ws: seq<World>, evs: seq<Event>, i: nat, j: nat, id: string)
    requires IsLawfulRun(ws, evs) && i <= j < |ws| && id in ws[i].elections
    ensures id in ws[j].elections && ws[j].elections[id].title == ws[i].elections[id].title
    ensures ws[j].elections[id].options == ws[i].elections[id].options
  {
    RunLater(ws, evs, i, j);
  }

  lemma ListsSame(d: Db, d': Db, id: string, rows: seq<BallotRow>, rows': seq<BallotRow>)
    requires Filter(d'.ballots, LiveIn(id)) == Filter(d.ballots, LiveIn(id))
    requires |Filter(d.ballots, LiveIn(id))| <= MAX_VOTERS
    requires AreHashes(d, id, rows) && AreHashes(d', id, rows')
    ensures multiset(rows) == multiset(rows')
  {
  }

  lemma TalliesSame(d: Db, d': Db, id: string, res: Results, res': Results)
    requires forall i :: Filter(d'.ballots, LiveFor(id, i)) == Filter(d.ballots, LiveFor(id, i))
    requires AreResults(d, id, res) && AreResults(d', id, res') && res.optionCount == res'.optionCount
    ensures res.tally == res'.tally
  {
  }

  lemma ResultsAt(issue: (string, int) -> string, ws: seq<World>, ds: seq<Db>, evs: seq<Event>, i: nat)
    returns (res: Results)
    requires IsRun(issue, ds, evs) && Shadows(issue, ws, ds, evs) && i < |evs|
    requires evs[i].req.ReadResults? && evs[i].resp.status == Success
    ensures evs[i].resp.body == Tallied(Some(res)) && AreResults(ds[i], evs[i].req.id, res)
    ensures var id := evs[i].req.id;
            && id in ws[i].elections && ws[i].elections[id].state == Published
            && res.title == ws[i].elections[id].title && res.options == ws[i].elections[id].options
            && res.optionCount == |ws[i].elections[id].options|
  {
    assert Took(issue, ds, evs, i) && TrackedAt(ws, ds, i);
    res := evs[i].resp.body.results.value;
    ResultsElection(ws[i], ds[i], evs[i].req.id, res);
  }

  /** What two readings of one published election give. */
  lemma SameAnswers(issue: (string, int) -> string, ws: seq<World>, ds: seq<Db>, evs: seq<Event>, i: nat, j: nat,
                    id: string, res: Results, res': Results)
    requires IsRun(issue, ds, evs) && Shadows(issue, ws, ds, evs) && ds[0] == EmptyDb && i <= j < |ds|
    requires id in ws[i].elections && Stage(ws[i].elections[id].state) >= 2
    requires AreResults(ds[i], id, res) && AreResults(ds[j], id, res') && res.optionCount == res'.optionCount
    ensures res'.tally == res.tally && multiset(res'.rows) == multiset(res.rows)
  {
    CountsStay(issue, ws, ds, evs, i, j, id);
    TalliesSame(ds[i], ds[j], id, res, res');
    ListsSame(ds[i], ds[j], id, res.rows, res'.rows);
  }

  /** Any two successful results requests for one election, by whomever and whenever in a run, were
      answered with the same title, options, tally and rows, whatever receipts were issued. */
  lemma ResultsAgree(issue: (string, int) -> string, ds: seq<Db>, evs: seq<Event>, i: nat, j: nat)
    returns (res: Results, res': Results)
    requires IsRun(issue, ds, evs) && AllNumbered(ds, evs) && ds[0] == EmptyDb && i <= j < |evs|
    requires evs[i].req.ReadResults? && evs[j].req.ReadResults? && evs[i].req.id == evs[j].req.id
    requires evs[i].resp.status == Success && evs[j].resp.status == Success
    ensures evs[i].resp.body == Tallied(Some(res)) && evs[j].resp.body == Tallied(Some(res'))
    ensures res'.title == res.title && res'.options == res.options && res'.tally == res.tally
    ensures multiset(res'.rows) == multiset(res.rows)
  {
    var id := evs[i].req.id;
    var ws := RunTracks(issue, ds, evs);
    res := ResultsAt(issue, ws, ds, evs, i);
    res' := ResultsAt(issue, ws, ds, evs, j);
    SettingsStay(ws, evs, i, j, id);
    SameAnswers(issue, ws, ds, evs, i, j, id, res, res');
  }
}
