/**
 Elections do not touch one another: what happens to one election in a run is a run of its
 own, on the rows of that election alone. So a collision of ids or receipts in one election
 leaves every other as it should be.
 */
module Independence {
  import opened Options
  import opened Tables
  import opened ElectionId
  import opened Commands
  import opened Brain
  import opened BallotLog
  import opened BallotTally
  import opened Refinement
  import opened Runs
  import opened Outcomes
  import opened FinalResults

  /** The rows of one election. */
  ghost function OnlyOf(d: Db, id: string): Db
  {
    Db(Filter(d.elections, IdIs(id)), Filter(d.options, OptionOf(id)), Filter(d.eligible, EligibleFor(id)),
       Filter(d.ballots, BallotIn(id)), Filter(d.owners, OwnerIn(id)), Filter(d.nonces, NonceIn(id)))
  }

  lemma FilterTwice<T(!new)>(m: multiset<T>, p: T -> bool, q: T -> bool)
    requires forall x :: q(x) ==> p(x)
    ensures Filter(Filter(m, p), q) == Filter(m, q)
  {
  }

  lemma FilterIn<T(!new)>(m: multiset<T>, p: T -> bool, x: T)
    ensures x in Filter(m, p) <==> x in m && p(x)
  {
  }

  // ---- what is read of one election is read of its rows

  lemma UnusedOnly(d: Db, id: string)
    ensures Unused(OnlyOf(d, id), id) <==> Unused(d, id)
  {
    if !Unused(d, id) {
      var r :| r in d.elections && r.id == id;
      assert r in OnlyOf(d, id).elections;
    }
  }

  lemma OptionsOnly(d: Db, id: string, names: seq<string>, count: nat)
    ensures AreOptions(OnlyOf(d, id), id, names, count) <==> AreOptions(d, id, names, count)
  {
    FilterTwice(d.options, OptionOf(id), OptionOf(id));
    forall i, name
      ensures HoldsOption(OnlyOf(d, id), id, i, name) <==> HoldsOption(d, id, i, name)
    {
      HeldOnly(d, id, i, name);
    }
  }

  lemma HeldOnly(d: Db, id: string, i: int, name: string)
    ensures HoldsOption(OnlyOf(d, id), id, i, name) <==> HoldsOption(d, id, i, name)
  {
    FilterIn(d.options, OptionOf(id), OptionRow(id, i, name));
    forall r: OptionRow
      ensures r in OnlyOf(d, id).options <==> r in d.options && r.election == id
    {
      FilterIn(d.options, OptionOf(id), r);
    }
  }

  lemma EligibleOnly(d: Db, id: string, certs: seq<string>)
    ensures AreEligible(OnlyOf(d, id), id, certs) <==> AreEligible(d, id, certs)
  {
    FilterTwice(d.eligible, EligibleFor(id), EligibleFor(id));
    forall c
      ensures EligibleRow(id, c) in OnlyOf(d, id).eligible <==> EligibleRow(id, c) in d.eligible
    {
      FilterIn(d.eligible, EligibleFor(id), EligibleRow(id, c));
    }
  }

  lemma ElectionOnly(d: Db, id: string, e: Election)
    ensures IsElection(OnlyOf(d, id), id, e) <==> IsElection(d, id, e)
  {
    OptionsOnly(d, id, e.options, e.optionCount);
    EligibleOnly(d, id, e.eligible);
    forall r: ElectionRow
      ensures r in OnlyOf(d, id).elections <==> r in d.elections && r.id == id
    {
      FilterIn(d.elections, IdIs(id), r);
    }
  }

  lemma OwnerOnly(d: Db, id: string, cert: string, prior: Option<OwnerRow>)
    ensures FindsOwner(OnlyOf(d, id), id, cert, prior) <==> FindsOwner(d, id, cert, prior)
  {
    forall o: OwnerRow
      ensures o in OnlyOf(d, id).owners <==> o in d.owners && o.election == id
    {
      FilterIn(d.owners, OwnerIn(id), o);
    }
  }

  lemma LiveOnly(d: Db, id: string, hash: string, row: Option<BallotRow>)
    ensures FindsLive(OnlyOf(d, id), id, hash, row) <==> FindsLive(d, id, hash, row)
  {
    forall r: BallotRow
      ensures r in OnlyOf(d, id).ballots <==> r in d.ballots && r.election == id
    {
      FilterIn(d.ballots, BallotIn(id), r);
    }
  }

  lemma ResultsOnly(d: Db, id: string, res: Results)
    requires AreResults(d, id, res)
    ensures AreResults(OnlyOf(d, id), id, res)
  {
    var e :| && IsElection(d, id, e) && e.state == Published && res.title == e.title
             && res.optionCount == e.optionCount && res.options == e.options[..e.optionCount];
    ElectionOnly(d, id, e);
    FilterTwice(d.ballots, BallotIn(id), LiveIn(id));
    forall i
      ensures Filter(OnlyOf(d, id).ballots, LiveFor(id, i)) == Filter(d.ballots, LiveFor(id, i))
    {
      FilterTwice(d.ballots, BallotIn(id), LiveFor(id, i));
    }
  }

  // ---- what is written for one election is written to its rows

  lemma CreatedOnly(d: Db, id: string, c: Config)
    ensures OnlyOf(WithElection(d, id, c), id) == WithElection(OnlyOf(d, id), id, c)
  {
    SeqDistinct(id, Cut(c.options, MAX_OPTIONS));
    CertsInRows(id, Cut(c.eligible, MAX_VOTERS));
    FilterAdded(d.elections, multiset{NewRow(id, c)}, IdIs(id));
    FilterAdded(d.options, multiset(OptionRowsOf(id, Cut(c.options, MAX_OPTIONS))), OptionOf(id));
    FilterAdded(d.eligible, multiset(EligibleRowsOf(id, Cut(c.eligible, MAX_VOTERS))), EligibleFor(id));
  }

  lemma CreatedElsewhere(d: Db, x: string, c: Config, id: string)
    requires x != id
    ensures OnlyOf(WithElection(d, x, c), id) == OnlyOf(d, id)
  {
    SeqDistinct(x, Cut(c.options, MAX_OPTIONS));
    CertsInRows(x, Cut(c.eligible, MAX_VOTERS));
    FilterAdded(d.elections, multiset{NewRow(x, c)}, IdIs(id));
    FilterAdded(d.options, multiset(OptionRowsOf(x, Cut(c.options, MAX_OPTIONS))), OptionOf(id));
    FilterAdded(d.eligible, multiset(EligibleRowsOf(x, Cut(c.eligible, MAX_VOTERS))), EligibleFor(id));
  }

  lemma StateOnly(d: Db, row: ElectionRow, to: State)
    ensures OnlyOf(WithState(d, row, to), row.id) == WithState(OnlyOf(d, row.id), row, to)
  {
    assert Filter(WithState(d, row, to).elections, IdIs(row.id)) == WithState(OnlyOf(d, row.id), row, to).elections;
  }

  lemma StateElsewhere(d: Db, row: ElectionRow, to: State, id: string)
    requires row.id != id
    ensures OnlyOf(WithState(d, row, to), id) == OnlyOf(d, id)
  {
    assert Filter(WithState(d, row, to).elections, IdIs(id)) == Filter(d.elections, IdIs(id));
  }

  lemma BallotsOnly(rows: multiset<BallotRow>, added: BallotRow, replaced: BallotRow, id: string)
    requires added.election == id
    ensures Filter(rows + multiset{added}, BallotIn(id)) == Filter(rows, BallotIn(id)) + multiset{added}
    ensures replaced.election == id ==>
              var all, mine := rows + multiset{added}, Filter(rows, BallotIn(id)) + multiset{added};
              var gone, put := HashIs(id, replaced.hash), multiset{replaced.(superseded := true)};
              Filter(all - Filter(all, gone) + put, BallotIn(id)) == mine - Filter(mine, gone) + put
  {
  }

  lemma OwnersOnly(owners: multiset<OwnerRow>, o: OwnerRow)
    ensures Filter(owners - Filter(owners, OwnedBy(o.election, o.cert)) + multiset{o}, OwnerIn(o.election))
            == var mine := Filter(owners, OwnerIn(o.election));
               mine - Filter(mine, OwnedBy(o.election, o.cert)) + multiset{o}
  {
  }

  lemma AfterOnly(d: Db, id: string, b: Ballot, hash: string, prior: Option<OwnerRow>, replaced: BallotRow)
    requires prior.Some? ==> replaced.election == id
    ensures OnlyOf(AfterBallot(d, id, b, hash, prior, replaced), id)
            == AfterBallot(OnlyOf(d, id), id, b, hash, prior, replaced)
  {
    var owner := OwnerRow(id, b.cert, hash, NewVersion(prior));
    AfterFields(d, id, b, hash, prior, replaced);
    AfterFields(OnlyOf(d, id), id, b, hash, prior, replaced);
    BallotsOnly(d.ballots, NewBallotRow(id, b, hash, prior), replaced, id);
    OwnersOnly(d.owners, owner);
    FilterAdded(d.nonces, multiset{NonceRow(id, b.nonce)}, NonceIn(id));
  }

  lemma RecordedOnly(issue: (string, int) -> string, d: Db, d': Db, id: string, b: Ballot, hash: string)
    requires Recorded(issue, d, d', id, b, hash)
    ensures Recorded(issue, OnlyOf(d, id), OnlyOf(d', id), id, b, hash)
  {
    var rd :| RecordedBy(issue, d, d', id, b, hash, rd);
    RecordedByOnly(issue, d, d', id, b, hash, rd);
  }

  lemma RecordedByOnly(issue: (string, int) -> string, d: Db, d': Db, id: string, b: Ballot, hash: string, rd: Reading)
    requires RecordedBy(issue, d, d', id, b, hash, rd)
    ensures RecordedBy(issue, OnlyOf(d, id), OnlyOf(d', id), id, b, hash, rd)
  {
    ElectionOnly(d, id, rd.election);
    OwnerOnly(d, id, b.cert, rd.prior);
    FilterIn(d.nonces, NonceIn(id), NonceRow(id, b.nonce));
    FilterIn(d.ballots, BallotIn(id), rd.replaced);
    AfterOnly(d, id, b, hash, rd.prior, rd.replaced);
  }

  lemma RecordedElsewhere(issue: (string, int) -> string, d: Db, d': Db, x: string, b: Ballot, hash: string, id: string)
    requires Recorded(issue, d, d', x, b, hash) && x != id
    ensures OnlyOf(d', id) == OnlyOf(d, id)
  {
    OthersUntouched(issue, d, d', x, b, hash, id);
    var rd :| RecordedBy(issue, d, d', x, b, hash, rd);
    AfterFields(d, x, b, hash, rd.prior, rd.replaced);
  }

  // ---- one request

  /** An event that leaves an election alone. */
  function Idle(id: string): Event { Event(Check(id, ""), Response(StoreFailed, Counted(None, "")), false) }

  /** The event created the election. */
  ghost predicate Creates(d: Db, d': Db, e: Event, id: string)
  {
    e.req.CreateElection? && d' != d && e.resp.body == NewId(id)
  }

  predicate Concerns(req: Request, id: string)
  {
    (req.Advance? || req.Enter? || req.Submit? || req.ReadResults? || req.Check?) && req.id == id
  }

  /** What an event is to one election. */
  ghost function Seen(d: Db, d': Db, e: Event, id: string): Event
  {
    if Creates(d, d', e, id) then Event(CreateElection(e.req.config, id), e.resp, false)
    else if Concerns(e.req, id) then e.(fellBack := false)
    else Idle(id)
  }

  /** A creation found the id free. */
  ghost predicate FreeFor(d: Db, d': Db, e: Event, id: string) { Creates(d, d', e, id) ==> Unused(d, id) }

  lemma AdvanceSeen(issue: (string, int) -> string, d: Db, d': Db, id: string, to: State, resp: Response, fellBack: bool)
    requires Step(issue, d, d', Advance(id, to), resp, fellBack)
    ensures Step(issue, OnlyOf(d, id), OnlyOf(d', id), Advance(id, to), resp, false)
  {
    if StateMoved(d, d', id, to) {
      MovedOnly(d, d', id, to);
    }
    if resp.status != StoreFailed {
      MoveRuledOnly(d, id, to, resp.status);
    }
  }

  lemma MovedOnly(d: Db, d': Db, id: string, to: State)
    requires StateMoved(d, d', id, to)
    ensures StateMoved(OnlyOf(d, id), OnlyOf(d', id), id, to)
  {
    var e :| MayMove(d, id, e, to);
    ElectionOnly(d, id, e);
    assert MayMove(OnlyOf(d, id), id, e, to);
    var row :| MovesRow(d, d', id, row, to);
    FilterIn(d.elections, IdIs(id), row);
    StateOnly(d, row, to);
    assert MovesRow(OnlyOf(d, id), OnlyOf(d', id), id, row, to);
  }

  lemma MoveRuledOnly(d: Db, id: string, to: State, r: Result)
    requires MoveRuled(d, id, to, r)
    ensures MoveRuled(OnlyOf(d, id), id, to, r)
  {
    UnusedOnly(d, id);
    if r != NotFound {
      var e :| IsElection(d, id, e) && MoveGate(e, to) == r;
      ElectionOnly(d, id, e);
    }
  }

  lemma EnterSeen(issue: (string, int) -> string, d: Db, id: string, cert: string, resp: Response, fellBack: bool)
    requires Step(issue, d, d, Enter(id, cert), resp, fellBack)
    ensures Step(issue, OnlyOf(d, id), OnlyOf(d, id), Enter(id, cert), resp, false)
  {
    if resp.status == Success {
      JoinedOnly(d, id, cert, resp.body.election.value, resp.body.hasBallot, resp.body.version);
    }
    if resp.status != StoreFailed {
      JoinRuledOnly(d, id, cert, resp.status);
    }
  }

  lemma JoinedOnly(d: Db, id: string, cert: string, e: Election, hasBallot: bool, version: int)
    requires JoinedTo(d, id, cert, e, hasBallot, version)
    ensures JoinedTo(OnlyOf(d, id), id, cert, e, hasBallot, version)
  {
    ElectionOnly(d, id, e);
    var prior :| && FindsOwner(d, id, cert, prior) && hasBallot == prior.Some?
                 && version == if prior.Some? then prior.value.version else 0;
    OwnerOnly(d, id, cert, prior);
  }

  lemma JoinRuledOnly(d: Db, id: string, cert: string, r: Result)
    requires JoinRuled(d, id, cert, r)
    ensures JoinRuled(OnlyOf(d, id), id, cert, r)
  {
    UnusedOnly(d, id);
    if r != NotFound {
      var e :| IsElection(d, id, e) && JoinGate(e, cert) == r;
      ElectionOnly(d, id, e);
    }
  }

  lemma SubmitSeen(issue: (string, int) -> string, d: Db, d': Db, id: string, b: Ballot, resp: Response, fellBack: bool)
    requires Step(issue, d, d', Submit(id, b), resp, fellBack)
    ensures Step(issue, OnlyOf(d, id), OnlyOf(d', id), Submit(id, b), resp, false)
  {
    if resp.status == Success {
      RecordedOnly(issue, d, d', id, b, resp.body.hash);
    } else if d' != d {
      var hash :| Recorded(issue, d, d', id, b, hash);
      RecordedOnly(issue, d, d', id, b, hash);
    }
    if !IsStoreResult(resp.status) {
      RefusedOnly(d, id, b, resp.status);
    }
  }

  lemma RefusedOnly(d: Db, id: string, b: Ballot, r: Result)
    requires Refused(d, id, b, r)
    ensures Refused(OnlyOf(d, id), id, b, r)
  {
    UnusedOnly(d, id);
    FilterIn(d.nonces, NonceIn(id), NonceRow(id, b.nonce));
    if r != NotFound {
      var e :| IsElection(d, id, e) && Gate(e, NonceRow(id, b.nonce) in d.nonces, b) == r;
      ElectionOnly(d, id, e);
    }
  }

  lemma ResultsSeen(issue: (string, int) -> string, d: Db, id: string, who: Option<string>, resp: Response,
                    fellBack: bool)
    requires Step(issue, d, d, ReadResults(id, who), resp, fellBack)
    ensures Step(issue, OnlyOf(d, id), OnlyOf(d, id), ReadResults(id, who), resp, false)
  {
    if resp.status == Success {
      ResultsOnly(d, id, resp.body.results.value);
    }
    if resp.status != StoreFailed {
      ResultsRuledOnly(d, id, who, resp.status);
    }
  }

  lemma ResultsRuledOnly(d: Db, id: string, who: Option<string>, r: Result)
    requires ResultsRuled(d, id, who, r)
    ensures ResultsRuled(OnlyOf(d, id), id, who, r)
  {
    UnusedOnly(d, id);
    if r != NotFound {
      var e :| IsElection(d, id, e) && ResultsGate(e, who) == r;
      ElectionOnly(d, id, e);
    }
  }

  lemma CheckSeen(issue: (string, int) -> string, d: Db, id: string, hash: string, resp: Response, fellBack: bool)
    requires Step(issue, d, d, Check(id, hash), resp, fellBack)
    ensures Step(issue, OnlyOf(d, id), OnlyOf(d, id), Check(id, hash), resp, false)
  {
    if resp.status != StoreFailed {
      LookedUpOnly(d, id, hash, resp.status, resp.body.row, resp.body.name);
    }
  }

  lemma LookedUpOnly(d: Db, id: string, hash: string, r: Result, row: Option<BallotRow>, name: string)
    requires LookedUp(d, id, hash, r, row, name)
    ensures LookedUp(OnlyOf(d, id), id, hash, r, row, name)
  {
    UnusedOnly(d, id);
    LiveOnly(d, id, hash, None);
    LiveOnly(d, id, hash, row);
    if r != NotFound {
      var e :| IsElection(d, id, e) && NameIn(e, row.value.option, name);
      ElectionOnly(d, id, e);
    }
  }

  lemma CreateSeen(issue: (string, int) -> string, d: Db, d': Db, e: Event, id: string)
    requires Step(issue, d, d', e.req, e.resp, e.fellBack) && Creates(d, d', e, id) && Unused(d, id)
    ensures id != "" && Step(issue, OnlyOf(d, id), OnlyOf(d', id), CreateElection(e.req.config, id), e.resp, false)
  {
    var c := e.req.config;
    assert Created(d, d', c, e.req.desired, e.fellBack, id);
    assert id != "";
    UnusedOnly(d, id);
    CreatedOnly(d, id, c);
    assert Created(OnlyOf(d, id), OnlyOf(d', id), c, id, false, id);
  }

  /** A request about another election, or about none, leaves the election's rows alone. */
  lemma OthersIdle(issue: (string, int) -> string, d: Db, d': Db, e: Event, id: string)
    requires Step(issue, d, d', e.req, e.resp, e.fellBack) && !Creates(d, d', e, id) && !Concerns(e.req, id)
    ensures OnlyOf(d', id) == OnlyOf(d, id)
  {
    if d' != d {
      match e.req {
        case CreateElection(c, desired) => CreatedElsewhere(d, e.resp.body.id, c, id);
        case Advance(x, to) =>
          var row :| MovesRow(d, d', x, row, to);
          StateElsewhere(d, row, to, id);
        case Submit(x, b) =>
          var hash :| Recorded(issue, d, d', x, b, hash);
          RecordedElsewhere(issue, d, d', x, b, hash, id);
        case _ =>
      }
    }
  }

  lemma ConcernedSeen(issue: (string, int) -> string, d: Db, d': Db, e: Event, id: string)
    requires Step(issue, d, d', e.req, e.resp, e.fellBack) && Concerns(e.req, id)
    ensures Step(issue, OnlyOf(d, id), OnlyOf(d', id), e.req, e.resp, false)
  {
    match e.req {
      case Advance(x, to) => AdvanceSeen(issue, d, d', id, to, e.resp, e.fellBack);
      case Enter(x, cert) => EnterSeen(issue, d, id, cert, e.resp, e.fellBack);
      case Submit(x, b) => SubmitSeen(issue, d, d', id, b, e.resp, e.fellBack);
      case ReadResults(x, who) => ResultsSeen(issue, d, id, who, e.resp, e.fellBack);
      case Check(x, hash) => CheckSeen(issue, d, id, hash, e.resp, e.fellBack);
      case _ =>
    }
  }

  /** Every request is, to one election, a request on its rows alone. */
  lemma StepSeen(issue: (string, int) -> string, d: Db, d': Db, e: Event, id: string)
    requires Step(issue, d, d', e.req, e.resp, e.fellBack) && FreeFor(d, d', e, id)
    ensures var s := Seen(d, d', e, id);
            && Step(issue, OnlyOf(d, id), OnlyOf(d', id), s.req, s.resp, s.fellBack)
            && Numbered(OnlyOf(d, id), OnlyOf(d', id), s.req, s.fellBack)
  {
    if Creates(d, d', e, id) {
      CreateSeen(issue, d, d', e, id);
    } else if Concerns(e.req, id) {
      ConcernedSeen(issue, d, d', e, id);
    } else {
      OthersIdle(issue, d, d', e, id);
    }
  }

  // ---- whole runs

  ghost function StoresOf(ds: seq<Db>, id: string): (r: seq<Db>)
    ensures |r| == |ds| && forall i :: 0 <= i < |ds| ==> r[i] == OnlyOf(ds[i], id)
  {
    seq(|ds|, i requires 0 <= i < |ds| => OnlyOf(ds[i], id))
  }

  ghost function EventsOf(ds: seq<Db>, evs: seq<Event>, id: string): (r: seq<Event>)
    requires |ds| == |evs| + 1
    ensures |r| == |evs| && forall i :: 0 <= i < |evs| ==> r[i] == Seen(ds[i], ds[i + 1], evs[i], id)
  {
    seq(|evs|, i requires 0 <= i < |evs| => Seen(ds[i], ds[i + 1], evs[i], id))
  }

  /** Whenever this election was created in the run, its id was free. */
  ghost predicate FreeAlways(ds: seq<Db>, evs: seq<Event>, id: string)
    requires |ds| == |evs| + 1
  {
    forall i :: 0 <= i < |evs| ==> FreeAt(ds, evs, i, id)
  }

  ghost predicate FreeAt(ds: seq<Db>, evs: seq<Event>, i: nat, id: string)
    requires |ds| == |evs| + 1 && i < |evs|
  {
    FreeFor(ds[i], ds[i + 1], evs[i], id)
  }

  lemma SeenAt(issue: (string, int) -> string, ds: seq<Db>, evs: seq<Event>, id: string, i: nat)
    requires IsRun(issue, ds, evs) && i < |evs| && FreeAt(ds, evs, i, id)
    ensures var ps, es := StoresOf(ds, id), EventsOf(ds, evs, id);
            Took(issue, ps, es, i) && Numbered(ps[i], ps[i + 1], es[i].req, es[i].fellBack)
  {
    assert Took(issue, ds, evs, i);
    StepSeen(issue, ds[i], ds[i + 1], evs[i], id);
  }

  /** To one election a run is a run on its rows alone, and one whose ids were free if its own was. */
  lemma RunOfOne(issue: (string, int) -> string, ds: seq<Db>, evs: seq<Event>, id: string)
    requires IsRun(issue, ds, evs) && ds[0] == EmptyDb && FreeAlways(ds, evs, id)
    ensures var ps, es := StoresOf(ds, id), EventsOf(ds, evs, id);
            IsRun(issue, ps, es) && AllNumbered(ps, es) && ps[0] == EmptyDb
  {
    var ps, es := StoresOf(ds, id), EventsOf(ds, evs, id);
    forall i | 0 <= i < |evs|
      ensures Took(issue, ps, es, i) && Numbered(ps[i], ps[i + 1], es[i].req, es[i].fellBack)
    {
      assert FreeAt(ds, evs, i, id);
      SeenAt(issue, ds, evs, id, i);
    }
    EmptyOnly(id);
  }

  lemma EmptyOnly(id: string)
    ensures OnlyOf(EmptyDb, id) == EmptyDb
  {
    var d := OnlyOf(EmptyDb, id);
    assert d.elections == multiset{} && d.options == multiset{} && d.eligible == multiset{};
    assert d.ballots == multiset{} && d.owners == multiset{} && d.nonces == multiset{};
  }

  // ---- what holds of one election, whatever became of the others

  lemma OwnSeen(ds: seq<Db>, evs: seq<Event>, id: string, i: nat)
    requires |ds| == |evs| + 1 && i < |evs| && Concerns(evs[i].req, id)
    ensures var e := EventsOf(ds, evs, id)[i];
            e.req == evs[i].req && e.resp == evs[i].resp
  {
  }

  /** Two successful results answers for an election agree if its own id was free when it was created. */
  lemma ResultsAgreeOne(issue: (string, int) -> string, ds: seq<Db>, evs: seq<Event>, i: nat, j: nat)
    returns (res: Results, res': Results)
    requires IsRun(issue, ds, evs) && ds[0] == EmptyDb && i <= j < |evs|
    requires evs[i].req.ReadResults? && evs[j].req.ReadResults? && evs[i].req.id == evs[j].req.id
    requires evs[i].resp.status == Success && evs[j].resp.status == Success
    requires FreeAlways(ds, evs, evs[i].req.id)
    ensures evs[i].resp.body == Tallied(Some(res)) && evs[j].resp.body == Tallied(Some(res'))
    ensures res'.title == res.title && res'.options == res.options && res'.tally == res.tally
    ensures multiset(res'.rows) == multiset(res.rows)
  {
    var id := evs[i].req.id;
    RunOfOne(issue, ds, evs, id);
    OwnSeen(ds, evs, id, i);
    OwnSeen(ds, evs, id, j);
    res, res' := ResultsAgree(issue, StoresOf(ds, id), EventsOf(ds, evs, id), i, j);
  }

  /** An election whose own id was free keeps one row, its settings, and a state that only advances. */
  lemma StatesAdvanceOne(issue: (string, int) -> string, ds: seq<Db>, evs: seq<Event>, i: nat, j: nat, r: ElectionRow)
    returns (x: ElectionRow)
    requires IsRun(issue, ds, evs) && ds[0] == EmptyDb && FreeAlways(ds, evs, r.id) && i <= j < |ds|
    requires r in ds[i].elections
    ensures x in ds[j].elections && x == r.(state := x.state) && Stage(r.state) <= Stage(x.state)
    ensures ds[i].elections[r] == 1 && forall y :: y in ds[i].elections && y.id == r.id ==> y == r
  {
    RunOfOne(issue, ds, evs, r.id);
    var p := OnlyOf(ds[i], r.id);
    assert r in p.elections && p.elections[r] == ds[i].elections[r];
    x := StatesAdvance(issue, StoresOf(ds, r.id), EventsOf(ds, evs, r.id), i, j, r);
    assert OneRowEach(p);
    forall y | y in ds[i].elections && y.id == r.id
      ensures y == r
    {
      assert y in p.elections;
    }
    FilterIn(ds[j].elections, IdIs(r.id), x);
  }

  lemma SameOnly(d: Db, d': Db, id: string)
    requires SameRows(OnlyOf(d, id), OnlyOf(d', id), id)
    ensures SameRows(d, d', id)
  {
    FilterTwice(d.ballots, BallotIn(id), BallotIn(id));
    FilterTwice(d'.ballots, BallotIn(id), BallotIn(id));
    FilterTwice(d.owners, OwnerIn(id), OwnerIn(id));
    FilterTwice(d'.owners, OwnerIn(id), OwnerIn(id));
    FilterTwice(d.nonces, NonceIn(id), NonceIn(id));
    FilterTwice(d'.nonces, NonceIn(id), NonceIn(id));
  }

  /** Once it is closed, the rows of an election whose own id was free never change again. */
  lemma RowsFrozenOne(issue: (string, int) -> string, ds: seq<Db>, evs: seq<Event>, i: nat, j: nat, r: ElectionRow)
    requires IsRun(issue, ds, evs) && ds[0] == EmptyDb && FreeAlways(ds, evs, r.id) && i <= j < |ds|
    requires r in ds[i].elections && (r.state == Closed || r.state == Published)
    ensures SameRows(ds[i], ds[j], r.id)
  {
    RunOfOne(issue, ds, evs, r.id);
    assert r in OnlyOf(ds[i], r.id).elections;
    RowsFrozen(issue, StoresOf(ds, r.id), EventsOf(ds, evs, r.id), i, j, r);
    SameOnly(ds[i], ds[j], r.id);
  }

  /** Whenever a ballot of this election was recorded, it superseded one ballot at most. */
  ghost predicate AloneAlways(issue: (string, int) -> string, ds: seq<Db>, evs: seq<Event>, id: string)
    requires |ds| == |evs| + 1
  {
    forall i :: 0 <= i < |evs| && Concerns(evs[i].req, id) ==> AloneAt(issue, ds, evs, i)
  }

  lemma SupersedesOnly(issue: (string, int) -> string, d: Db, id: string, b: Ballot)
    requires SupersedesOne(issue, d, id, b)
    ensures SupersedesOne(issue, OnlyOf(d, id), id, b)
  {
    forall prior | FindsOwner(OnlyOf(d, id), id, b.cert, Some(prior))
      ensures && |Filter(OnlyOf(d, id).ballots, HashIs(id, prior.hash))| == 1
              && issue(b.nonce, NewVersion(Some(prior))) != prior.hash
    {
      OwnerOnly(d, id, b.cert, Some(prior));
      FilterTwice(d.ballots, BallotIn(id), HashIs(id, prior.hash));
    }
  }

  lemma AloneSeen(issue: (string, int) -> string, ds: seq<Db>, evs: seq<Event>, id: string, i: nat)
    requires |ds| == |evs| + 1 && i < |evs| && AloneAlways(issue, ds, evs, id)
    ensures AloneAt(issue, StoresOf(ds, id), EventsOf(ds, evs, id), i)
  {
    var s := Seen(ds[i], ds[i + 1], evs[i], id);
    if s.req.Submit? && OnlyOf(ds[i + 1], id) != OnlyOf(ds[i], id) {
      assert AloneAt(issue, ds, evs, i);
      SupersedesOnly(issue, ds[i], id, evs[i].req.ballot);
    }
  }

  /** An election whose own id was free and whose own ballots superseded one at most is a plain world of
      its own: every request about it is ruled, recorded, counted and searched as its own log says. */
  lemma {:induction false} RunOfOneRefines(issue: (string, int) -> string, ds: seq<Db>, evs: seq<Event>, id: string)
    returns (ws: seq<World>)
    requires IsRun(issue, ds, evs) && ds[0] == EmptyDb
    requires FreeAlways(ds, evs, id) && AloneAlways(issue, ds, evs, id)
    ensures Shows(ws, StoresOf(ds, id), EventsOf(ds, evs, id)) && ws[0] == EmptyWorld
    ensures forall i :: 0 <= i < |evs| && Concerns(evs[i].req, id) ==>
              WorldStep(ws[i], ws[i + 1], evs[i].req, evs[i].resp)
  {
    var ps, es := StoresOf(ds, id), EventsOf(ds, evs, id);
    RunOfOne(issue, ds, evs, id);
    forall i | 0 <= i < |es|
      ensures AloneAt(issue, ps, es, i)
    {
      AloneSeen(issue, ds, evs, id, i);
    }
    ws := RunRefines(issue, ps, es);
    forall i | 0 <= i < |evs| && Concerns(evs[i].req, id)
      ensures WorldStep(ws[i], ws[i + 1], evs[i].req, evs[i].resp)
    {
      OwnSeen(ds, evs, id, i);
      assert Moved(ws, es, i) && CountsRight(ws[i], es[i].req, es[i].resp);
    }
  }
}
