/**
 The store refines a plain world: a map from election id to its settings and state, and
 a log of accepted ballots. One request of the daemon is one step of that world, whatever
 the network and the runner do to the statements behind it.
 */
module Refinement {
  import opened Options
  import opened Tables
  import opened ElectionId
  import opened Commands
  import opened Brain
  import opened BallotLog
  import opened BallotTally

  datatype Info = Info(title: string, state: State, openTime: string, closeTime: string,
                       options: seq<string>, eligible: seq<string>)

  datatype World = World(elections: map<string, Info>, log: seq<Vote>)

  function InfoRow(id: string, x: Info): ElectionRow
  {
    ElectionRow(IdNumber(id), id, x.title, x.state, x.openTime, x.closeTime)
  }

  // ---- the representation

  /** One row per election, holding its settings and state under its number. */
  ghost predicate ElectionsMatch(w: World, d: Db)
  {
    forall r :: d.elections[r] == if r.id in w.elections && r == InfoRow(r.id, w.elections[r.id]) then 1 else 0
  }

  ghost predicate OptionsMatch(w: World, d: Db)
  {
    && (forall r :: r in d.options ==> r.election in w.elections)
    && (forall id :: id in w.elections ==>
          Filter(d.options, OptionOf(id)) == multiset(OptionRowsOf(id, w.elections[id].options)))
  }

  ghost predicate EligibleMatch(w: World, d: Db)
  {
    && (forall r :: r in d.eligible ==> r.election in w.elections)
    && (forall id :: id in w.elections ==>
          Filter(d.eligible, EligibleFor(id)) == multiset(EligibleRowsOf(id, w.elections[id].eligible)))
  }

  /** The settings, the owner rows and the nonce rows are the world's; the ballot rows may be others. */
  ghost predicate Tracks(w: World, d: Db)
  {
    match w
    case World(_, log) => ElectionsMatch(w, d) && OptionsMatch(w, d) && EligibleMatch(w, d) && HoldsVoters(log, d)
  }

  ghost predicate Represents(w: World, d: Db)
  {
    match w
    case World(_, log) => Tracks(w, d) && d.ballots == multiset(Rows(log))
  }

  // ---- what holds in every world

  ghost predicate InfoOk(x: Info)
  {
    && x.title != "" && 2 <= |x.options| <= MAX_OPTIONS && |x.eligible| <= MAX_VOTERS
    && ComesAfter(x.closeTime, x.openTime)
  }

  /** In strcmp's order `a` comes after `b`: it goes on where `b` ends, or has the larger character where
      they first differ. */
  ghost predicate ComesAfter(a: string, b: string) { b < a || exists k: nat :: LargerAt(a, b, k) }

  predicate LargerAt(a: string, b: string, k: nat)
  {
    k < |a| && k < |b| && a[k] > b[k] && forall j :: 0 <= j < k ==> a[j] == b[j]
  }

  /** A configuration is taken if and only if it has a title, two options at least, and closes after it
      opens; the first of these that fails names the refusal. */
  ghost function ConfigVerdict(c: Config): Result
  {
    if c.title == "" then BadTitle
    else if |c.options| < 2 then BadOptions
    else if !ComesAfter(c.closeTime, c.openTime) then BadTime
    else Success
  }

  /** The order of an election's states. */
  function Stage(s: State): nat
  {
    match s
    case Draft => 0
    case Open => 1
    case Closed => 2
    case Published => 3
  }

  predicate VoteOk(w: World, v: Vote)
  {
    && v.election in w.elections
    && w.elections[v.election].state != Draft
    && 0 <= v.option < |w.elections[v.election].options|
    && v.voter in w.elections[v.election].eligible
  }

  ghost predicate NoncesUnique(log: seq<Vote>)
  {
    forall i, j :: 0 <= i < j < |log| && log[i].election == log[j].election ==> log[i].nonce != log[j].nonce
  }

  ghost predicate Lawful(w: World)
  {
    match w
    case World(elections, log) =>
      && (forall id :: id in elections ==> InfoOk(elections[id]))
      && (forall j :: 0 <= j < |log| ==> VoteOk(w, log[j]))
      && NoncesUnique(log)
  }

  // ---- the plain world's steps

  predicate NonceUsed(log: seq<Vote>, id: string, nonce: string)
  {
    exists j :: 0 <= j < |log| && log[j].election == id && log[j].nonce == nonce
  }

  /** Why the plain world refuses a ballot, or Success. */
  function Verdict(w: World, id: string, b: Ballot): Result
  {
    if id !in w.elections then NotFound
    else
      var x := w.elections[id];
      if x.state == Closed || x.state == Published then AlreadyClosed
      else if x.state == Draft then NotOpen
      else if b.cert !in x.eligible then NotEligible
      else if !(0 <= Choice(b) < |x.options|) then BadOption
      else if NonceUsed(w.log, id, b.nonce) then Replayed
      else Success
  }

  /** The status the plain world answers a request with. */
  ghost function Ruling(w: World, req: Request): Result
  {
    match req
    case CreateElection(c, desired) =>
      if ConfigVerdict(c) != Success then ConfigVerdict(c)
      else if desired != "" && desired in w.elections then IdTaken
      else Success
    case NextId => Success
    case Advance(id, to) =>
      if id !in w.elections then NotFound
      else if Stage(to) == Stage(w.elections[id].state) + 1 then Success
      else IllegalTransition
    case Enter(id, cert) =>
      if id !in w.elections then NotFound
      else if cert == "" then CertInvalid
      else if cert !in w.elections[id].eligible then NotEligible
      else if w.elections[id].state != Open then NotOpen
      else Success
    case Submit(id, b) => Verdict(w, id, b)
    case ReadResults(id, who) =>
      if id !in w.elections then NotFound
      else if w.elections[id].state != Published then NotPublished
      else if who.Some? && who.value !in w.elections[id].eligible then NotEligible
      else Success
    case Check(id, hash) =>
      if id in w.elections && exists j: nat :: LiveReceipt(w.log, id, hash, j) then Success else NotFound
  }

  function NewInfo(c: Config): Info
  {
    Info(c.title, Draft, c.openTime, c.closeTime, Cut(c.options, MAX_OPTIONS), Cut(c.eligible, MAX_VOTERS))
  }

  function Opened(w: World, id: string, c: Config): World { w.(elections := w.elections[id := NewInfo(c)]) }

  function Advanced(w: World, id: string, to: State): World
    requires id in w.elections
  {
    w.(elections := w.elections[id := w.elections[id].(state := to)])
  }

  function Voted(w: World, v: Vote): World { w.(log := w.log + [v]) }

  /** The results of an election, counted on the log. */
  ghost predicate CountedOn(w: World, id: string, res: Results)
  {
    && id in w.elections && w.elections[id].state == Published
    && res.title == w.elections[id].title && res.options == w.elections[id].options
    && |res.tally| == res.optionCount == |w.elections[id].options|
    && (forall i :: 0 <= i < |res.tally| ==> res.tally[i] == |Supporters(w.log, id, i)|)
    && |res.rows| == Sum(res.tally) == |Turnout(w.log, id)| <= |w.elections[id].eligible|
    && multiset(res.rows) == Filter(multiset(Rows(w.log)), LiveIn(id))
  }

  /** Some live ballot of the election carries the receipt. */
  ghost predicate LiveReceipt(log: seq<Vote>, id: string, hash: string, j: nat)
  {
    j < |log| && log[j].election == id && log[j].hash == hash && !HasLater(log, j)
  }

  /** One request, as the plain world sees it, but for what is read off the ballot rows. */
  ghost predicate LawfulStep(w: World, w': World, req: Request, resp: Response)
  {
    && (resp.status != Success && resp.status != StoreFailed ==> w' == w)
    && (resp.status == StoreRetry ==> req.Submit?)
    && (Answered(resp.status) && !req.Check? ==> resp.status == Ruling(w, req))
    && match req
       case CreateElection(c, desired) =>
         && resp.body.NewId?
         && (w' == w || (ConfigVerdict(c) == Success && resp.body.id !in w.elections && w' == Opened(w, resp.body.id, c)))
         && (resp.status == Success ==> resp.body.id !in w.elections && w' == Opened(w, resp.body.id, c))
       case Advance(id, to) =>
         && (w' == w || (id in w.elections && Stage(to) == Stage(w.elections[id].state) + 1 && w' == Advanced(w, id, to)))
         && (resp.status == Success ==>
               id in w.elections && Stage(to) == Stage(w.elections[id].state) + 1 && w' == Advanced(w, id, to))
       case Enter(id, cert) =>
         && w' == w && resp.body.Entered?
         && (resp.status == Success ==>
               && resp.body.version == CountOf(w.log, id, cert)
               && (resp.body.hasBallot <==> CountOf(w.log, id, cert) > 0))
       case Submit(id, b) =>
         && resp.body.Receipt?
         && (w' == w || exists hash :: Verdict(w, id, b) == Success && w' == Voted(w, VoteOf(id, b, hash)))
         && (resp.status == Success ==> w' == Voted(w, VoteOf(id, b, resp.body.hash)))
       case _ => w' == w
  }

  /** The receipt is the one of the live ballot `j`, and the answer names its option. */
  ghost predicate Reported(w: World, id: string, hash: string, j: nat, option: int, name: string)
  {
    && LiveReceipt(w.log, id, hash, j) && id in w.elections
    && w.log[j].option == option && 0 <= option < |w.elections[id].options|
    && w.elections[id].options[option] == name
  }

  /** What is read off the ballot rows is what the log says. */
  ghost predicate CountsRight(w: World, req: Request, resp: Response)
  {
    match req
    case ReadResults(id, who) =>
      && resp.body.Tallied?
      && (resp.status == Success ==> resp.body.results.Some? && CountedOn(w, id, resp.body.results.value))
    case Check(id, hash) =>
      && resp.body.Counted?
      && (Answered(resp.status) ==> resp.status == Ruling(w, req))
      && (resp.status == Success ==>
            && resp.body.row.Some?
            && exists j: nat :: Reported(w, id, hash, j, resp.body.row.value.option, resp.body.name))
    case _ => true
  }

  /** One request, as the plain world sees it. */
  ghost predicate WorldStep(w: World, w': World, req: Request, resp: Response)
  {
    LawfulStep(w, w', req, resp) && CountsRight(w, req, resp)
  }

  // ---- what a run must satisfy

  /** The receipt about to be issued is on no ballot of the election yet. */
  ghost predicate FreshReceipt(issue: (string, int) -> string, d: Db, id: string, b: Ballot)
  {
    forall prior, r :: FindsOwner(d, id, b.cert, prior) && r in d.ballots && r.election == id ==>
                         r.hash != issue(b.nonce, NewVersion(prior))
  }

  /** A creation that moved the store under an allocated number found its id free. */
  ghost predicate Numbered(d: Db, d': Db, req: Request, fellBack: bool)
  {
    req.CreateElection? && req.desired == "" && d' != d ==> NumbersOk(d, fellBack)
  }

  /** The receipt about to be superseded is on one ballot of the election and is not issued again. */
  ghost predicate SupersedesOne(issue: (string, int) -> string, d: Db, id: string, b: Ballot)
  {
    forall prior :: FindsOwner(d, id, b.cert, Some(prior)) ==>
                      && |Filter(d.ballots, HashIs(id, prior.hash))| == 1
                      && issue(b.nonce, NewVersion(Some(prior))) != prior.hash
  }

  /** A ballot that moved the store superseded one ballot at most. */
  ghost predicate Alone(issue: (string, int) -> string, d: Db, d': Db, req: Request)
  {
    req.Submit? && d' != d ==> SupersedesOne(issue, d, req.id, req.ballot)
  }

  /** A ballot that moved the store got a receipt that was new in its election. */
  ghost predicate Unshared(issue: (string, int) -> string, d: Db, d': Db, req: Request)
  {
    req.Submit? && d' != d ==> FreshReceipt(issue, d, req.id, req.ballot)
  }

  // ---- what the handlers check, in the world's terms

  /** A transition is legal if and only if it goes one stage up. */
  lemma LegalEdges(from: State, to: State)
    ensures LegalTransition(from, to) <==> Stage(to) == Stage(from) + 1
  {
  }

  lemma {:induction false} BeforeMeans(a: string, b: string)
    ensures Before(a, b) <==> ComesAfter(b, a)
  {
    if a != "" && b != "" && a[0] == b[0] {
      BeforeMeans(a[1..], b[1..]);
      if ComesAfter(b[1..], a[1..]) && !(a[1..] < b[1..]) {
        var k: nat :| LargerAt(b[1..], a[1..], k);
        assert LargerAt(b, a, k + 1);
      }
      if k: nat :| LargerAt(b, a, k) {
        assert LargerAt(b[1..], a[1..], k - 1);
      }
      assert a < b <==> a[1..] < b[1..];
    } else if a != "" && b != "" {
      assert a[0] < b[0] ==> LargerAt(b, a, 0);
    }
  }

  lemma ConfigMeans(c: Config)
    ensures ValidateConfig(c) == ConfigVerdict(c)
  {
    BeforeMeans(c.openTime, c.closeTime);
  }

  // ---- reading a represented store

  lemma SeqDistinct(id: string, names: seq<string>)
    ensures forall r :: r in multiset(OptionRowsOf(id, names)) ==>
              r.election == id && 0 <= r.index < |names| && r.name == names[r.index]
    ensures forall i :: 0 <= i < |names| ==> OptionRow(id, i, names[i]) in multiset(OptionRowsOf(id, names))
  {
    var rows := OptionRowsOf(id, names);
    forall r: OptionRow | r in multiset(rows)
      ensures r.election == id && 0 <= r.index < |names| && r.name == names[r.index]
    {
      assert r in rows;
    }
    forall i | 0 <= i < |names|
      ensures OptionRow(id, i, names[i]) in multiset(rows)
    {
      assert rows[i] in rows;
    }
  }

  lemma CertsInRows(id: string, certs: seq<string>)
    ensures forall r :: r in multiset(EligibleRowsOf(id, certs)) ==> r.election == id && r.cert in certs
    ensures forall c :: c in certs ==> EligibleRow(id, c) in multiset(EligibleRowsOf(id, certs))
  {
    var rows := EligibleRowsOf(id, certs);
    forall r: EligibleRow | r in multiset(rows)
      ensures r.election == id && r.cert in certs
    {
      assert r in rows;
    }
    forall c | c in certs
      ensures EligibleRow(id, c) in multiset(rows)
    {
      var i :| 0 <= i < |certs| && certs[i] == c;
      assert rows[i] in rows;
    }
  }

  /** The stored row of an election is the one the world says. */
  lemma RowRead(w: World, d: Db, r: ElectionRow)
    requires ElectionsMatch(w, d) && r in d.elections
    ensures r.id in w.elections && r == InfoRow(r.id, w.elections[r.id])
  {
  }

  lemma OptionsRead(w: World, d: Db, id: string, names: seq<string>, count: nat)
    requires OptionsMatch(w, d) && id in w.elections && InfoOk(w.elections[id])
    requires AreOptions(d, id, names, count)
    ensures count == |w.elections[id].options| && names[..count] == w.elections[id].options
  {
    var stored := w.elections[id].options;
    var rows := Filter(d.options, OptionOf(id));
    assert |rows| == |stored|;
    SeqDistinct(id, stored);
    forall i | 0 <= i < count
      ensures names[i] == stored[i]
    {
      assert HoldsOption(d, id, i, names[i]);
      assert OptionRow(id, i, stored[i]) in rows;
      if OptionRow(id, i, names[i]) in d.options {
        assert OptionRow(id, i, names[i]) in rows;
      }
    }
  }

  lemma EligibleReadBack(w: World, d: Db, id: string, certs: seq<string>)
    requires EligibleMatch(w, d) && id in w.elections && InfoOk(w.elections[id])
    requires AreEligible(d, id, certs)
    ensures forall c :: c in certs <==> c in w.elections[id].eligible
  {
    var stored := w.elections[id].eligible;
    var rows := Filter(d.eligible, EligibleFor(id));
    assert |rows| == |stored|;
    CertsInRows(id, stored);
    forall c
      ensures c in certs <==> c in stored
    {
      if c in certs {
        assert EligibleRow(id, c) in rows;
      }
      if c in stored {
        assert EligibleRow(id, c) in rows;
      }
    }
  }

  /** Loading an election from a represented store gives the world's election. */
  lemma ElectionRead(w: World, d: Db, id: string, e: Election)
    requires Tracks(w, d) && Lawful(w) && IsElection(d, id, e)
    ensures id in w.elections
    ensures var x := w.elections[id];
            && e.title == x.title && e.state == x.state
            && e.optionCount == |x.options| && e.options[..e.optionCount] == x.options
            && (forall c :: c in e.eligible <==> c in x.eligible)
  {
    var r :| r in d.elections && r.id == id && r.title == e.title && r.state == e.state
             && r.openTime == e.openTime && r.closeTime == e.closeTime;
    RowRead(w, d, r);
    OptionsRead(w, d, id, e.options, e.optionCount);
    EligibleReadBack(w, d, id, e.eligible);
  }

  lemma UnusedRead(w: World, d: Db, id: string)
    requires ElectionsMatch(w, d)
    ensures Unused(d, id) <==> id !in w.elections
  {
    if id in w.elections {
      assert InfoRow(id, w.elections[id]) in d.elections;
    }
  }

  lemma NonceRead(w: World, d: Db, id: string, nonce: string)
    requires HoldsVoters(w.log, d)
    ensures NonceRow(id, nonce) in d.nonces <==> NonceUsed(w.log, id, nonce)
  {
    var rows := Nonces(w.log);
    assert NonceRow(id, nonce) in d.nonces <==> NonceRow(id, nonce) in rows;
    if j :| 0 <= j < |w.log| && w.log[j].election == id && w.log[j].nonce == nonce {
      assert rows[j] == NonceRow(id, nonce);
    }
  }

  lemma GateAgrees(w: World, id: string, b: Ballot, e: Election, seen: bool)
    requires id in w.elections && e.state == w.elections[id].state && e.optionCount == |w.elections[id].options|
    requires b.cert in e.eligible <==> b.cert in w.elections[id].eligible
    requires seen <==> NonceUsed(w.log, id, b.nonce)
    ensures Gate(e, seen, b) == Verdict(w, id, b)
  {
  }

  /** The handler's gate and the world's verdict agree. */
  lemma {:induction false} GateIsVerdict(w: World, d: Db, id: string, b: Ballot, e: Election)
    requires Tracks(w, d) && Lawful(w) && IsElection(d, id, e)
    ensures Gate(e, NonceRow(id, b.nonce) in d.nonces, b) == Verdict(w, id, b)
  {
    NonceRead(w, d, id, b.nonce);
    ElectionRead(w, d, id, e);
    GateAgrees(w, id, b, e, NonceRow(id, b.nonce) in d.nonces);
  }

  // ---- one request at a time

  lemma {:induction false} LawfulVoted(w: World, id: string, b: Ballot, hash: string)
    requires Lawful(w) && Verdict(w, id, b) == Success
    ensures Lawful(Voted(w, VoteOf(id, b, hash)))
  {
    var v := VoteOf(id, b, hash);
    var log' := w.log + [v];
    assert forall j :: 0 <= j < |w.log| ==> log'[j] == w.log[j];
    assert log'[|w.log|] == v && VoteOk(w, v);
    assert forall j :: 0 <= j < |log'| ==> VoteOk(Voted(w, v), log'[j]);
  }

  lemma {:induction false} FreshInLog(log: seq<Vote>, d: Db, id: string, hash: string)
    requires Holds(log, d) && forall r :: r in d.ballots && r.election == id ==> r.hash != hash
    ensures FreshIn(log, id, hash)
  {
    forall j | 0 <= j < |log| && log[j].election == id
      ensures log[j].hash != hash
    {
      assert Rows(log)[j] in Rows(log);
      assert Rows(log)[j] in d.ballots;
    }
  }

  /** An accepted ballot is one vote appended, and the log's own verdict accepts it too; whatever
      its receipt, the owner and nonce rows follow. */
  lemma {:induction false} BallotStep(issue: (string, int) -> string, w: World, d: Db, d': Db, id: string, b: Ballot,
                                      hash: string)
    requires Tracks(w, d) && Lawful(w) && Recorded(issue, d, d', id, b, hash)
    ensures Verdict(w, id, b) == Success
    ensures Tracks(Voted(w, VoteOf(id, b, hash)), d') && Lawful(Voted(w, VoteOf(id, b, hash)))
  {
    var rd :| RecordedBy(issue, d, d', id, b, hash, rd);
    BallotPassed(issue, w, d, d', id, b, hash, rd);
    BallotTracked(issue, w, d, d', id, b, hash, rd);
  }

  lemma BallotPassed(issue: (string, int) -> string, w: World, d: Db, d': Db, id: string, b: Ballot, hash: string,
                     rd: Reading)
    requires Tracks(w, d) && Lawful(w) && RecordedBy(issue, d, d', id, b, hash, rd)
    ensures Verdict(w, id, b) == Success && Lawful(Voted(w, VoteOf(id, b, hash)))
  {
    assert Verdict(w, id, b) == Success by {
      GateIsVerdict(w, d, id, b, rd.election);
    }
    LawfulVoted(w, id, b, hash);
  }

  lemma BallotTracked(issue: (string, int) -> string, w: World, d: Db, d': Db, id: string, b: Ballot, hash: string,
                      rd: Reading)
    requires Tracks(w, d) && RecordedBy(issue, d, d', id, b, hash, rd)
    ensures Tracks(Voted(w, VoteOf(id, b, hash)), d')
  {
    OthersFollow(w.log, d, id, b, hash, rd.prior, rd.replaced);
    AfterFields(d, id, b, hash, rd.prior, rd.replaced);
    SettingsKept(w, Voted(w, VoteOf(id, b, hash)), d, d');
  }

  lemma OnlyMember<T>(s: set<T>, x: T)
    requires x in s
    ensures |s| == 1 <==> forall y :: y in s ==> y == x
  {
    if |s| == 1 {
      assert |s - {x}| == 0;
    }
    if forall y :: y in s ==> y == x {
      assert s == {x};
    }
  }

  /** Only row `p` of the log carries its receipt. */
  lemma {:induction false} OneCarries(log: seq<Vote>, p: nat)
    requires p < |log|
    ensures |Filter(multiset(Rows(log)), HashIs(log[p].election, log[p].hash))| == 1 <==>
            forall j :: 0 <= j < |log| && j != p && log[j].election == log[p].election ==> log[j].hash != log[p].hash
  {
    var carriers := set j: nat | j < |log| && log[j].election == log[p].election && log[j].hash == log[p].hash;
    CountMatching(Rows(log), HashIs(log[p].election, log[p].hash), carriers);
    OnlyMember(carriers, p);
    if j :| 0 <= j < |log| && j != p && log[j].election == log[p].election && log[j].hash == log[p].hash {
      assert j in carriers;
    }
  }

  /** What the tables say of the superseded receipt is what the log says. */
  lemma {:induction false} AloneMeans(issue: (string, int) -> string, log: seq<Vote>, d: Db, id: string, b: Ballot,
                                      hash: string, prior: Option<OwnerRow>)
    requires Holds(log, d) && FindsOwner(d, id, b.cert, prior) && hash == issue(b.nonce, NewVersion(prior))
    ensures SupersedesOne(issue, d, id, b) <==> PriorHashUnique(log, VoteOf(id, b, hash))
  {
    PriorIsLast(log, d, id, b.cert, prior);
    forall o | FindsOwner(d, id, b.cert, Some(o))
      ensures prior == Some(o)
    {
      PriorIsLast(log, d, id, b.cert, Some(o));
    }
    if prior.Some? {
      OneCarries(log, LastOf(log, id, b.cert).value);
    }
  }

  /** The ballot rows follow the log if and only if the superseded receipt was on one ballot, and
      otherwise some ballot has lost its row. */
  lemma {:induction false} BallotPictured(issue: (string, int) -> string, log: seq<Vote>, d: Db, d': Db, id: string,
                                          b: Ballot, hash: string)
    requires Holds(log, d) && Recorded(issue, d, d', id, b, hash)
    ensures Holds(log + [VoteOf(id, b, hash)], d') <==> SupersedesOne(issue, d, id, b)
    ensures |d'.ballots| == |d'.nonces| <==> SupersedesOne(issue, d, id, b)
  {
    var rd :| RecordedBy(issue, d, d', id, b, hash, rd);
    PicturedBy(issue, log, d, d', id, b, hash, rd);
  }

  lemma {:induction false} PicturedBy(issue: (string, int) -> string, log: seq<Vote>, d: Db, d': Db, id: string,
                                      b: Ballot, hash: string, rd: Reading)
    requires Holds(log, d) && RecordedBy(issue, d, d', id, b, hash, rd)
    ensures Holds(log + [VoteOf(id, b, hash)], d') <==> SupersedesOne(issue, d, id, b)
    ensures |d'.ballots| == |d'.nonces| <==> SupersedesOne(issue, d, id, b)
  {
    AloneMeans(issue, log, d, id, b, hash, rd.prior);
    BallotLands(log, d, id, b, hash, rd.prior, rd.replaced);
    NoncesSize(log, d);
    RecordedMoves(issue, d, d', id, b, hash);
    if PriorHashUnique(log, VoteOf(id, b, hash)) {
      HoldsSize(log + [VoteOf(id, b, hash)], d');
    } else {
      RowsLost(log, d, id, b, hash, rd.prior, rd.replaced);
    }
  }

  lemma NoncesSize(log: seq<Vote>, d: Db)
    requires HoldsVoters(log, d)
    ensures |d.nonces| == |log|
  {
    assert |multiset(Nonces(log))| == |Nonces(log)|;
  }

  /** Every ballot has one row and one nonce. */
  lemma HoldsSize(log: seq<Vote>, d: Db)
    requires Holds(log, d)
    ensures |d.ballots| == |d.nonces| == |log|
  {
    NoncesSize(log, d);
    assert |multiset(Rows(log))| == |Rows(log)|;
  }

  lemma RecordedMoves(issue: (string, int) -> string, d: Db, d': Db, id: string, b: Ballot, hash: string)
    requires Recorded(issue, d, d', id, b, hash)
    ensures d'.nonces == d.nonces + multiset{NonceRow(id, b.nonce)} && |d'.nonces| == |d.nonces| + 1 && d' != d
  {
    assert d'.nonces == d.nonces + multiset{NonceRow(id, b.nonce)};
    assert |d'.nonces| == |d.nonces| + 1;
  }

  /** A receipt that is new in its election leaves no receipt shared, and supersedes one ballot at most. */
  lemma {:induction false} FreshAlone(issue: (string, int) -> string, log: seq<Vote>, d: Db, d': Db, id: string,
                                      b: Ballot, hash: string)
    requires Holds(log, d) && HashesUnique(log) && Recorded(issue, d, d', id, b, hash) && FreshReceipt(issue, d, id, b)
    ensures SupersedesOne(issue, d, id, b) && HashesUnique(log + [VoteOf(id, b, hash)])
  {
    var rd :| RecordedBy(issue, d, d', id, b, hash, rd);
    FreshInLog(log, d, id, hash);
    FreshKeepsUnique(log, VoteOf(id, b, hash));
    AloneMeans(issue, log, d, id, b, hash, rd.prior);
  }

  lemma SettingsKept(w: World, w': World, d: Db, d': Db)
    requires ElectionsMatch(w, d) && OptionsMatch(w, d) && EligibleMatch(w, d)
    requires w'.elections == w.elections
    requires d'.elections == d.elections && d'.options == d.options && d'.eligible == d.eligible
    ensures ElectionsMatch(w', d') && OptionsMatch(w', d') && EligibleMatch(w', d')
  {
  }

  lemma FilterAdded<T(!new)>(m: multiset<T>, added: multiset<T>, p: T -> bool)
    ensures (forall x :: x in added ==> p(x)) ==> Filter(m + added, p) == Filter(m, p) + added
    ensures (forall x :: x in added ==> !p(x)) ==> Filter(m + added, p) == Filter(m, p)
  {
  }

  lemma FilterEmpty<T(!new)>(m: multiset<T>, p: T -> bool)
    requires forall x :: x in m ==> !p(x)
    ensures Filter(m, p) == multiset{}
  {
  }

  /** The id a creation settles on is free exactly when the operator chose it or the number behind it is good. */
  lemma {:induction false} ChosenIsNew(w: World, d: Db, desired: string, fellBack: bool, id: string)
    requires ElectionsMatch(w, d) && IdChosen(d, desired, fellBack, id)
    ensures id !in w.elections <==> (desired == "" ==> NumbersOk(d, fellBack))
  {
    UnusedRead(w, d, id);
    if desired == "" && !fellBack {
      var max :| IsMaxNumber(d, max) && id == IdOf(NextNumber(max));
      forall r | r in d.elections
        ensures r.number == IdNumber(r.id)
      {
        RowRead(w, d, r);
      }
      AllocatedFree(d, max);
    }
  }

  /** A creation under a taken id leaves two rows for one election, which pictures no world. */
  lemma TakenBreaks(w: World, d: Db, d': Db, c: Config, desired: string, fellBack: bool, id: string, w': World)
    requires ElectionsMatch(w, d) && Created(d, d', c, desired, fellBack, id) && id in w.elections
    ensures !ElectionsMatch(w', d')
  {
    var before := InfoRow(id, w.elections[id]);
    assert before in d.elections;
    assert d'.elections == d.elections + multiset{NewRow(id, c)};
    if ElectionsMatch(w', d') {
      RowRead(w', d', before);
      RowRead(w', d', NewRow(id, c));
    }
  }

  lemma OpenedElections(w: World, d: Db, id: string, c: Config)
    requires ElectionsMatch(w, d) && id !in w.elections
    ensures ElectionsMatch(Opened(w, id, c), WithElection(d, id, c))
  {
  }

  lemma OptionRowsAdded(rows: multiset<OptionRow>, id: string, names: seq<string>, x: string)
    ensures x != id ==> Filter(rows + multiset(OptionRowsOf(id, names)), OptionOf(x)) == Filter(rows, OptionOf(x))
    ensures x == id && (forall r :: r in rows ==> r.election != id) ==>
              Filter(rows + multiset(OptionRowsOf(id, names)), OptionOf(x)) == multiset(OptionRowsOf(id, names))
  {
    SeqDistinct(id, names);
    FilterAdded(rows, multiset(OptionRowsOf(id, names)), OptionOf(x));
    if x == id && forall r :: r in rows ==> r.election != id {
      FilterEmpty(rows, OptionOf(x));
    }
  }

  lemma {:induction false} OpenedOptions(w: World, d: Db, id: string, c: Config)
    requires OptionsMatch(w, d) && id !in w.elections
    ensures OptionsMatch(Opened(w, id, c), WithElection(d, id, c))
  {
    var names := Cut(c.options, MAX_OPTIONS);
    SeqDistinct(id, names);
    forall x | x in Opened(w, id, c).elections
      ensures Filter(d.options + multiset(OptionRowsOf(id, names)), OptionOf(x))
           == multiset(OptionRowsOf(x, Opened(w, id, c).elections[x].options))
    {
      OptionRowsAdded(d.options, id, names, x);
    }
  }

  lemma EligibleRowsAdded(rows: multiset<EligibleRow>, id: string, certs: seq<string>, x: string)
    ensures x != id ==> Filter(rows + multiset(EligibleRowsOf(id, certs)), EligibleFor(x)) == Filter(rows, EligibleFor(x))
    ensures x == id && (forall r :: r in rows ==> r.election != id) ==>
              Filter(rows + multiset(EligibleRowsOf(id, certs)), EligibleFor(x)) == multiset(EligibleRowsOf(id, certs))
  {
    CertsInRows(id, certs);
    FilterAdded(rows, multiset(EligibleRowsOf(id, certs)), EligibleFor(x));
    if x == id && forall r :: r in rows ==> r.election != id {
      FilterEmpty(rows, EligibleFor(x));
    }
  }

  lemma {:induction false} OpenedEligible(w: World, d: Db, id: string, c: Config)
    requires EligibleMatch(w, d) && id !in w.elections
    ensures EligibleMatch(Opened(w, id, c), WithElection(d, id, c))
  {
    var certs := Cut(c.eligible, MAX_VOTERS);
    CertsInRows(id, certs);
    forall x | x in Opened(w, id, c).elections
      ensures Filter(d.eligible + multiset(EligibleRowsOf(id, certs)), EligibleFor(x))
           == multiset(EligibleRowsOf(x, Opened(w, id, c).elections[x].eligible))
    {
      EligibleRowsAdded(d.eligible, id, certs, x);
    }
  }

  lemma LawfulOpened(w: World, id: string, c: Config)
    requires Lawful(w) && id !in w.elections && ConfigVerdict(c) == Success
    ensures Lawful(Opened(w, id, c))
  {
    assert InfoOk(NewInfo(c));
    assert forall j :: 0 <= j < |w.log| ==> VoteOk(w, w.log[j]) && VoteOk(Opened(w, id, c), w.log[j]);
  }

  lemma {:induction false} CreateStep(w: World, d: Db, d': Db, c: Config, desired: string, fellBack: bool, id: string)
    requires Tracks(w, d) && Lawful(w) && Created(d, d', c, desired, fellBack, id)
    requires desired == "" ==> NumbersOk(d, fellBack)
    ensures id !in w.elections && Tracks(Opened(w, id, c), d') && Lawful(Opened(w, id, c))
    ensures ConfigVerdict(c) == Success
  {
    ConfigMeans(c);
    ChosenIsNew(w, d, desired, fellBack, id);
    LawfulOpened(w, id, c);
    OpenedElections(w, d, id, c);
    OpenedOptions(w, d, id, c);
    OpenedEligible(w, d, id, c);
    VotersKept(w.log, d, d');
  }

  lemma VotersKept(log: seq<Vote>, d: Db, d': Db)
    requires HoldsVoters(log, d) && d'.owners == d.owners && d'.nonces == d.nonces
    ensures HoldsVoters(log, d')
  {
  }

  lemma AdvancedElections(w: World, d: Db, row: ElectionRow, to: State)
    requires ElectionsMatch(w, d) && row in d.elections
    ensures row.id in w.elections && ElectionsMatch(Advanced(w, row.id, to), WithState(d, row, to))
  {
    RowRead(w, d, row);
  }

  ghost predicate SameLists(w: World, w': World)
  {
    && (forall x :: x in w'.elections <==> x in w.elections)
    && (forall x :: x in w.elections ==> w'.elections[x].options == w.elections[x].options)
    && (forall x :: x in w.elections ==> w'.elections[x].eligible == w.elections[x].eligible)
  }

  lemma AdvancedLists(w: World, id: string, to: State)
    requires id in w.elections
    ensures SameLists(w, Advanced(w, id, to))
  {
  }

  lemma AdvancedOptions(w: World, w': World, d: Db, d': Db)
    requires OptionsMatch(w, d) && d'.options == d.options && SameLists(w, w')
    ensures OptionsMatch(w', d')
  {
    forall x | x in w'.elections
      ensures Filter(d'.options, OptionOf(x)) == multiset(OptionRowsOf(x, w'.elections[x].options))
    {
      assert x in w.elections;
    }
  }

  lemma AdvancedEligible(w: World, w': World, d: Db, d': Db)
    requires EligibleMatch(w, d) && d'.eligible == d.eligible && SameLists(w, w')
    ensures EligibleMatch(w', d')
  {
    forall x | x in w'.elections
      ensures Filter(d'.eligible, EligibleFor(x)) == multiset(EligibleRowsOf(x, w'.elections[x].eligible))
    {
      assert x in w.elections;
    }
  }

  /** The moved row belongs to the election that was loaded. */
  lemma {:induction false} MoveRead(w: World, d: Db, d': Db, id: string, to: State) returns (row: ElectionRow)
    requires Tracks(w, d) && Lawful(w) && StateMoved(d, d', id, to)
    ensures id in w.elections && LegalTransition(w.elections[id].state, to)
    ensures row in d.elections && row.id == id && d' == WithState(d, row, to)
  {
    var e :| MayMove(d, id, e, to);
    ElectionRead(w, d, id, e);
    row :| MovesRow(d, d', id, row, to);
  }

  lemma LawfulAdvanced(w: World, id: string, to: State)
    requires Lawful(w) && id in w.elections && to != Draft
    ensures Lawful(Advanced(w, id, to))
  {
    assert forall j :: 0 <= j < |w.log| ==> VoteOk(w, w.log[j]) && VoteOk(Advanced(w, id, to), w.log[j]);
  }

  lemma {:induction false} AdvanceStep(w: World, d: Db, d': Db, id: string, to: State)
    requires Tracks(w, d) && Lawful(w) && StateMoved(d, d', id, to)
    ensures id in w.elections && Stage(to) == Stage(w.elections[id].state) + 1
    ensures Tracks(Advanced(w, id, to), d') && Lawful(Advanced(w, id, to)) && d'.ballots == d.ballots
  {
    var row := MoveRead(w, d, d', id, to);
    LegalEdges(w.elections[id].state, to);
    TracksAdvanced(w, d, row, to);
    LawfulAdvanced(w, id, to);
  }

  lemma {:induction false} TracksAdvanced(w: World, d: Db, row: ElectionRow, to: State)
    requires Tracks(w, d) && row in d.elections
    ensures row.id in w.elections && Tracks(Advanced(w, row.id, to), WithState(d, row, to))
  {
    AdvancedElections(w, d, row, to);
    var w' := Advanced(w, row.id, to);
    var d' := WithState(d, row, to);
    AdvancedLists(w, row.id, to);
    AdvancedOptions(w, w', d, d');
    AdvancedEligible(w, w', d, d');
    VotersKept(w.log, d, d');
  }

  // ---- the reads

  lemma {:induction false} EnterStep(w: World, d: Db, id: string, cert: string, e: Election, hasBallot: bool,
                                     version: int)
    requires Tracks(w, d) && Lawful(w) && JoinedTo(d, id, cert, e, hasBallot, version)
    ensures id in w.elections && w.elections[id].state == Open && cert in w.elections[id].eligible
    ensures version == CountOf(w.log, id, cert)
    ensures hasBallot <==> CountOf(w.log, id, cert) > 0
  {
    ElectionRead(w, d, id, e);
    var prior :| && FindsOwner(d, id, cert, prior) && hasBallot == prior.Some?
                 && version == if prior.Some? then prior.value.version else 0;
    PriorIsLast(w.log, d, id, cert, prior);
    CountNoLast(w.log, id, cert);
  }

  lemma {:induction false} NamesBound(names: seq<string>)
    ensures |(set c | c in names)| <= |names|
  {
    if names != [] {
      NamesBound(names[1..]);
      assert (set c | c in names) == (set c | c in names[1..]) + {names[0]};
    }
  }

  lemma SubsetSize<T>(a: set<T>, b: set<T>)
    requires a <= b
    ensures |a| <= |b|
  {
    assert b == a + (b - a);
  }

  /** Nobody votes who is not eligible, so the turnout never outgrows the list. */
  lemma {:induction false} TurnoutBound(w: World, id: string)
    requires Lawful(w) && id in w.elections
    ensures |Turnout(w.log, id)| <= |w.elections[id].eligible|
    ensures Below(w.log, id, |w.elections[id].options|) == Turnout(w.log, id)
  {
    forall v | v in Turnout(w.log, id)
      ensures v in w.elections[id].eligible && v in Below(w.log, id, |w.elections[id].options|)
    {
      assert VoteOk(w, w.log[LastOf(w.log, id, v).value]);
    }
    NamesBound(w.elections[id].eligible);
    SubsetSize(Turnout(w.log, id), set c | c in w.elections[id].eligible);
  }

  /** A published tally counts every voter's latest ballot, and the list is never cut. */
  lemma ResultsElection(w: World, d: Db, id: string, res: Results)
    requires Tracks(w, d) && Lawful(w) && AreResults(d, id, res)
    ensures id in w.elections && w.elections[id].state == Published
    ensures res.title == w.elections[id].title && res.options == w.elections[id].options
    ensures |res.tally| == res.optionCount == |w.elections[id].options|
  {
    var e :| && IsElection(d, id, e) && e.state == Published && res.title == e.title
             && res.optionCount == e.optionCount && res.options == e.options[..e.optionCount];
    ElectionRead(w, d, id, e);
  }

  /** The array bound never cuts the published rows. */
  lemma RowsPublished(log: seq<Vote>, d: Db, id: string, rows: seq<BallotRow>)
    requires Holds(log, d) && AreHashes(d, id, rows) && |Turnout(log, id)| <= MAX_VOTERS
    ensures |rows| == |Turnout(log, id)| && multiset(rows) == Filter(multiset(Rows(log)), LiveIn(id))
  {
    HashListExact(log, d, id);
    assert |multiset(rows)| == |rows|;
  }

  lemma {:induction false} ResultsStep(w: World, d: Db, id: string, res: Results)
    requires Represents(w, d) && Lawful(w) && AreResults(d, id, res)
    ensures CountedOn(w, id, res)
  {
    ResultsElection(w, d, id, res);
    TalliesExact(w.log, d, id, res.tally);
    TallySums(w.log, id, res.tally);
    TurnoutBound(w, id);
    RowsPublished(w.log, d, id, res.rows);
  }

  lemma TalliesExact(log: seq<Vote>, d: Db, id: string, tally: seq<nat>)
    requires Holds(log, d) && forall i :: 0 <= i < |tally| ==> tally[i] == |Filter(d.ballots, LiveFor(id, i))|
    ensures forall i :: 0 <= i < |tally| ==> tally[i] == |Supporters(log, id, i)|
  {
    forall i | 0 <= i < |tally|
      ensures tally[i] == |Supporters(log, id, i)|
    {
      TallyExact(log, d, id, i);
    }
  }

  /** Finding a live row is finding a live ballot of the log with the receipt. */
  lemma {:induction false} LiveFound(log: seq<Vote>, d: Db, id: string, hash: string, row: Option<BallotRow>)
    requires Holds(log, d) && FindsLive(d, id, hash, row)
    ensures row.Some? ==> exists j: nat :: LiveReceipt(log, id, hash, j) && log[j].option == row.value.option
    ensures row.None? ==> forall j: nat :: !LiveReceipt(log, id, hash, j)
  {
    var rows := Rows(log);
    if row.Some? {
      assert row.value in rows;
      var j :| 0 <= j < |rows| && rows[j] == row.value;
      assert LiveReceipt(log, id, hash, j);
    } else {
      forall j: nat | j < |log|
        ensures !LiveReceipt(log, id, hash, j)
      {
        assert rows[j] in rows;
        assert rows[j] in d.ballots;
      }
    }
  }

  /** The name answered with a receipt is the one of the ballot's option. */
  lemma NameRead(w: World, d: Db, id: string, j: nat, name: string, e: Election)
    requires Tracks(w, d) && Lawful(w) && j < |w.log| && w.log[j].election == id
    requires IsElection(d, id, e) && NameIn(e, w.log[j].option, name)
    ensures id in w.elections && 0 <= w.log[j].option < |w.elections[id].options|
    ensures w.elections[id].options[w.log[j].option] == name
  {
    VoteInRange(w, j);
    ElectionRead(w, d, id, e);
    NameAgrees(e, w.elections[id].options, w.log[j].option, name);
  }

  lemma VoteInRange(w: World, j: nat)
    requires Lawful(w) && j < |w.log|
    ensures VoteOk(w, w.log[j])
  {
  }

  lemma NameAgrees(e: Election, names: seq<string>, option: int, name: string)
    requires NameIn(e, option, name) && e.optionCount == |names| && e.options[..e.optionCount] == names
    requires 0 <= option < |names|
    ensures names[option] == name
  {
  }

  lemma ReceiptFound(w: World, d: Db, id: string, hash: string, row: BallotRow, name: string, e: Election)
    requires Represents(w, d) && Lawful(w) && FindsLive(d, id, hash, Some(row))
    requires IsElection(d, id, e) && NameIn(e, row.option, name)
    ensures exists j: nat :: Reported(w, id, hash, j, row.option, name)
  {
    LiveFound(w.log, d, id, hash, Some(row));
    var j: nat :| LiveReceipt(w.log, id, hash, j) && w.log[j].option == row.option;
    NameRead(w, d, id, j, name, e);
    assert Reported(w, id, hash, j, row.option, name);
  }

  lemma ReportedRuling(w: World, id: string, hash: string, j: nat, option: int, name: string)
    requires Reported(w, id, hash, j, option, name)
    ensures Ruling(w, Check(id, hash)) == Success
  {
  }

  lemma MissingRuling(w: World, id: string, hash: string)
    requires id !in w.elections || forall j: nat :: !LiveReceipt(w.log, id, hash, j)
    ensures Ruling(w, Check(id, hash)) == NotFound
  {
  }

  lemma ReceiptMissing(w: World, d: Db, id: string, hash: string)
    requires Represents(w, d) && (Unused(d, id) || FindsLive(d, id, hash, None))
    ensures id !in w.elections || forall j: nat :: !LiveReceipt(w.log, id, hash, j)
  {
    if Unused(d, id) {
      UnusedRead(w, d, id);
    } else {
      LiveFound(w.log, d, id, hash, None);
    }
  }

  /** A receipt is found exactly when a live ballot carries it, and with that ballot's option. */
  lemma {:induction false} CheckStep(w: World, d: Db, id: string, hash: string, r: Result, row: Option<BallotRow>,
                                     name: string)
    requires Represents(w, d) && Lawful(w) && LookedUp(d, id, hash, r, row, name)
    ensures r == Ruling(w, Check(id, hash))
    ensures r == Success ==> row.Some? && exists j: nat :: Reported(w, id, hash, j, row.value.option, name)
  {
    if r == NotFound {
      ReceiptMissing(w, d, id, hash);
      MissingRuling(w, id, hash);
    } else {
      var e :| IsElection(d, id, e) && NameIn(e, row.value.option, name);
      ReceiptFound(w, d, id, hash, row.value, name, e);
      var j: nat :| Reported(w, id, hash, j, row.value.option, name);
      ReportedRuling(w, id, hash, j, row.value.option, name);
    }
  }

  // ---- the rulings

  /** A loaded election that is the world's, as far as a ruling can tell. */
  ghost predicate SameElection(w: World, id: string, e: Election)
  {
    && id in w.elections && e.state == w.elections[id].state
    && forall c :: c in e.eligible <==> c in w.elections[id].eligible
  }

  lemma LoadedSame(w: World, d: Db, id: string, e: Election)
    requires Tracks(w, d) && Lawful(w) && IsElection(d, id, e)
    ensures SameElection(w, id, e)
  {
    ElectionRead(w, d, id, e);
  }

  lemma GatesAgree(w: World, id: string, e: Election)
    requires SameElection(w, id, e)
    ensures forall to :: MoveGate(e, to) == Ruling(w, Advance(id, to))
    ensures forall cert :: JoinGate(e, cert) == Ruling(w, Enter(id, cert))
    ensures forall who :: ResultsGate(e, who) == Ruling(w, ReadResults(id, who))
  {
    forall to
      ensures MoveGate(e, to) == Ruling(w, Advance(id, to))
    {
      LegalEdges(e.state, to);
    }
  }

  lemma CreateRuling(w: World, d: Db, c: Config, desired: string, r: Result)
    requires ElectionsMatch(w, d) && CreateRuled(d, c, desired, r)
    requires r == Success && desired != "" ==> Unused(d, desired)
    ensures r == Ruling(w, CreateElection(c, desired))
  {
    ConfigMeans(c);
    UnusedRead(w, d, desired);
  }

  lemma MoveRuling(w: World, d: Db, id: string, to: State, r: Result)
    requires Tracks(w, d) && Lawful(w) && MoveRuled(d, id, to, r)
    ensures r == Ruling(w, Advance(id, to))
  {
    if r == NotFound {
      UnusedRead(w, d, id);
    } else {
      var e :| IsElection(d, id, e) && MoveGate(e, to) == r;
      LoadedSame(w, d, id, e);
      GatesAgree(w, id, e);
    }
  }

  lemma JoinRuling(w: World, d: Db, id: string, cert: string, r: Result)
    requires Tracks(w, d) && Lawful(w) && JoinRuled(d, id, cert, r)
    ensures r == Ruling(w, Enter(id, cert))
  {
    if r == NotFound {
      UnusedRead(w, d, id);
    } else {
      var e :| IsElection(d, id, e) && JoinGate(e, cert) == r;
      LoadedSame(w, d, id, e);
      GatesAgree(w, id, e);
    }
  }

  lemma ResultsRuling(w: World, d: Db, id: string, who: Option<string>, r: Result)
    requires Tracks(w, d) && Lawful(w) && ResultsRuled(d, id, who, r)
    ensures r == Ruling(w, ReadResults(id, who))
  {
    if r == NotFound {
      UnusedRead(w, d, id);
    } else {
      var e :| IsElection(d, id, e) && ResultsGate(e, who) == r;
      LoadedSame(w, d, id, e);
      GatesAgree(w, id, e);
    }
  }

  lemma SubmitRuling(w: World, d: Db, id: string, b: Ballot, r: Result)
    requires Tracks(w, d) && Lawful(w) && Refused(d, id, b, r)
    ensures r == Verdict(w, id, b)
  {
    if r == NotFound {
      UnusedRead(w, d, id);
    } else {
      var e :| IsElection(d, id, e) && Gate(e, NonceRow(id, b.nonce) in d.nonces, b) == r;
      GateIsVerdict(w, d, id, b, e);
    }
  }

  // ---- one step of the daemon

  /** The log grew by the ballot that was recorded, or the ballot rows stayed. */
  ghost predicate Lands(issue: (string, int) -> string, w: World, w': World, d: Db, d': Db, req: Request)
  {
    if w'.log == w.log then d'.ballots == d.ballots
    else
      && req.Submit?
      && exists hash :: && Recorded(issue, d, d', req.id, req.ballot, hash)
                        && w'.log == w.log + [VoteOf(req.id, req.ballot, hash)]
  }

  lemma {:induction false} CreateTracks(w: World, d: Db, d': Db, c: Config, desired: string, fellBack: bool,
                                        resp: Response)
    returns (w': World)
    requires Tracks(w, d) && Lawful(w) && Numbered(d, d', CreateElection(c, desired), fellBack)
    requires resp.body.NewId? && resp.status != StoreRetry
    requires resp.status != StoreFailed ==> CreateRuled(d, c, desired, resp.status)
    requires d' == d || Created(d, d', c, desired, fellBack, resp.body.id)
    requires resp.status == Success ==> Created(d, d', c, desired, fellBack, resp.body.id)
    requires resp.status != Success && resp.status != StoreFailed ==> d' == d
    ensures Tracks(w', d') && Lawful(w') && LawfulStep(w, w', CreateElection(c, desired), resp)
    ensures w'.log == w.log && d'.ballots == d.ballots
  {
    w' := w;
    if Created(d, d', c, desired, fellBack, resp.body.id) && (d' != d || resp.status == Success) {
      assert |d'.elections| == |d.elections| + 1;
      CreateStep(w, d, d', c, desired, fellBack, resp.body.id);
      w' := Opened(w, resp.body.id, c);
    }
    if Answered(resp.status) {
      CreateRuling(w, d, c, desired, resp.status);
    }
  }

  lemma {:induction false} AdvanceTracks(w: World, d: Db, d': Db, id: string, to: State, resp: Response)
    returns (w': World)
    requires Tracks(w, d) && Lawful(w) && resp.status != StoreRetry
    requires resp.status != StoreFailed ==> MoveRuled(d, id, to, resp.status)
    requires d' == d || StateMoved(d, d', id, to)
    requires resp.status == Success ==> StateMoved(d, d', id, to)
    requires resp.status != Success && resp.status != StoreFailed ==> d' == d
    ensures Tracks(w', d') && Lawful(w') && LawfulStep(w, w', Advance(id, to), resp)
    ensures w'.log == w.log && d'.ballots == d.ballots
  {
    w' := w;
    if d' != d || resp.status == Success {
      AdvanceStep(w, d, d', id, to);
      w' := Advanced(w, id, to);
    }
    if Answered(resp.status) {
      MoveRuling(w, d, id, to, resp.status);
    }
  }

  lemma {:induction false} SubmitTracks(issue: (string, int) -> string, w: World, d: Db, d': Db, id: string, b: Ballot,
                                        resp: Response)
    returns (w': World)
    requires Tracks(w, d) && Lawful(w) && Step(issue, d, d', Submit(id, b), resp, false)
    ensures Tracks(w', d') && Lawful(w') && LawfulStep(w, w', Submit(id, b), resp)
    ensures Lands(issue, w, w', d, d', Submit(id, b))
  {
    w' := w;
    if resp.status == Success || d' != d {
      var hash :| && Recorded(issue, d, d', id, b, hash)
                  && (resp.status == Success ==> hash == resp.body.hash);
      BallotStep(issue, w, d, d', id, b, hash);
      w' := Voted(w, VoteOf(id, b, hash));
    } else if Answered(resp.status) {
      SubmitRuling(w, d, id, b, resp.status);
    }
  }

  /** One dispatched request is one step of the plain world, whatever receipts were issued: elections,
      verdicts, versions and the log all follow, and only what is read off the ballot rows is left open. */
  lemma {:induction false} StepTracks(issue: (string, int) -> string, w: World, d: Db, d': Db, req: Request,
                                      resp: Response, fellBack: bool)
    returns (w': World)
    requires Tracks(w, d) && Lawful(w)
    requires Step(issue, d, d', req, resp, fellBack) && Numbered(d, d', req, fellBack)
    ensures Tracks(w', d') && Lawful(w') && LawfulStep(w, w', req, resp)
    ensures Lands(issue, w, w', d, d', req)
  {
    w' := w;
    match req {
      case CreateElection(c, desired) => w' := CreateTracks(w, d, d', c, desired, fellBack, resp);
      case NextId =>
      case Advance(id, to) => w' := AdvanceTracks(w, d, d', id, to, resp);
      case Enter(id, cert) =>
        if resp.status == Success {
          EnterStep(w, d, id, cert, resp.body.election.value, resp.body.hasBallot, resp.body.version);
        }
        if Answered(resp.status) {
          JoinRuling(w, d, id, cert, resp.status);
        }
      case Submit(id, b) => w' := SubmitTracks(issue, w, d, d', id, b, resp);
      case ReadResults(id, who) =>
        if Answered(resp.status) {
          ResultsRuling(w, d, id, who, resp.status);
        }
      case Check(id, hash) =>
    }
  }

  /** The recorded ballot behind a longer log, or the certainty that the store did not move by one. */
  lemma {:induction false} LandsBy(issue: (string, int) -> string, w: World, w': World, d: Db, d': Db, req: Request,
                                   resp: Response, fellBack: bool)
    returns (hash: string)
    requires Tracks(w, d) && Tracks(w', d') && Lands(issue, w, w', d, d', req) && Step(issue, d, d', req, resp, fellBack)
    ensures if req.Submit? && d' != d then
              && Recorded(issue, d, d', req.id, req.ballot, hash)
              && w'.log == w.log + [VoteOf(req.id, req.ballot, hash)]
            else w'.log == w.log && d'.ballots == d.ballots
  {
    hash := "";
    if w'.log != w.log {
      hash :| && Recorded(issue, d, d', req.id, req.ballot, hash)
              && w'.log == w.log + [VoteOf(req.id, req.ballot, hash)];
      RecordedMoves(issue, d, d', req.id, req.ballot, hash);
    } else if req.Submit? && d' != d {
      hash :| Recorded(issue, d, d', req.id, req.ballot, hash);
      RecordedMoves(issue, d, d', req.id, req.ballot, hash);
    }
  }

  /** The ballot rows follow too, if and only if no more than one ballot was superseded; and then, and
      only then, there are still as many ballot rows as nonces. */
  lemma {:induction false} RowsFollow(issue: (string, int) -> string, w: World, w': World, d: Db, d': Db, req: Request,
                                      resp: Response, fellBack: bool)
    requires Represents(w, d) && Tracks(w', d') && Lands(issue, w, w', d, d', req)
    requires Step(issue, d, d', req, resp, fellBack)
    ensures Represents(w', d') <==> Alone(issue, d, d', req)
    ensures |d'.ballots| == |d'.nonces| <==> Alone(issue, d, d', req)
  {
    var hash := LandsBy(issue, w, w', d, d', req, resp, fellBack);
    if req.Submit? && d' != d {
      BallotPictured(issue, w.log, d, d', req.id, req.ballot, hash);
    } else {
      HoldsSize(w.log, d);
      NoncesSize(w'.log, d');
    }
  }

  /** With a new receipt, receipts stay distinct and one ballot at most is superseded. */
  lemma {:induction false} ReceiptsFollow(issue: (string, int) -> string, w: World, w': World, d: Db, d': Db,
                                          req: Request, resp: Response, fellBack: bool)
    requires Represents(w, d) && HashesUnique(w.log) && Tracks(w', d') && Lands(issue, w, w', d, d', req)
    requires Step(issue, d, d', req, resp, fellBack) && Unshared(issue, d, d', req)
    ensures Alone(issue, d, d', req) && HashesUnique(w'.log)
  {
    var hash := LandsBy(issue, w, w', d, d', req, resp, fellBack);
    if req.Submit? && d' != d {
      FreshAlone(issue, w.log, d, d', req.id, req.ballot, hash);
    }
  }

  /** A represented store is counted and searched as the log says. */
  lemma {:induction false} ReadsRight(issue: (string, int) -> string, w: World, d: Db, d': Db, req: Request,
                                      resp: Response, fellBack: bool)
    requires Represents(w, d) && Lawful(w) && Step(issue, d, d', req, resp, fellBack)
    ensures CountsRight(w, req, resp)
  {
    match req {
      case ReadResults(id, who) =>
        if resp.status == Success {
          ResultsStep(w, d, id, resp.body.results.value);
        }
      case Check(id, hash) =>
        if Answered(resp.status) {
          CheckStep(w, d, id, hash, resp.status, resp.body.row, resp.body.name);
        }
      case _ =>
    }
  }

  /**
   The refinement: from a represented store, one dispatched request is one step of the
   plain world, and the new store represents the world after it if and only if the request
   superseded one ballot at most.
   */
  lemma {:induction false} StepRefines(issue: (string, int) -> string, w: World, d: Db, d': Db, req: Request,
                                       resp: Response, fellBack: bool)
    returns (w': World)
    requires Represents(w, d) && Lawful(w)
    requires Step(issue, d, d', req, resp, fellBack) && Numbered(d, d', req, fellBack)
    ensures Lawful(w') && WorldStep(w, w', req, resp) && Tracks(w', d')
    ensures Represents(w', d') <==> Alone(issue, d, d', req)
  {
    w' := StepTracks(issue, w, d, d', req, resp, fellBack);
    RowsFollow(issue, w, w', d, d', req, resp, fellBack);
    ReadsRight(issue, w, d, d', req, resp, fellBack);
  }
}
