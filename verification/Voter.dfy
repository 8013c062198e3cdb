/**
 The voter's client session (src/libballotclient/voter.c) against the daemon: the local
 ballot version, and how far it can fall behind the store's.
 */
module Voter {
  import opened Options
  import opened Tables
  import opened ElectionId
  import opened Commands
  import opened Brain
  import opened BallotLog
  import opened BallotTally
  import opened Refinement
  import opened Runs

  datatype Action = MustJoin | Cast | Update

  datatype JoinOutcome = JoinTimeout | JoinNotFound | JoinNotEligible | JoinNotOpen | Admitted

  function ClassifyJoin(status: Result, election: Option<Election>): JoinOutcome
  {
    match status
    case NotFound => JoinNotFound
    case NotEligible => JoinNotEligible
    case CertInvalid => JoinNotEligible
    case CertExpired => JoinNotEligible
    case NotOpen => JoinNotOpen
    case Success => if election.Some? && election.value.state == Open then Admitted else JoinNotOpen
    case _ => JoinTimeout
  }

  /** bu_encrypt_ballot: the option, a byte, is the payload. */
  function EncryptBallot(cert: string, nonce: string, option: int): (b: Ballot)
    requires 0 <= option <= 0xFF
    ensures Choice(b) == option && b.cert == cert && b.nonce == nonce
  {
    Ballot(cert, nonce, [option])
  }

  /** A ballot without a payload counts as one for the first option. */
  lemma EmptyBallot(w: World, id: string, cert: string, nonce: string, receipt: string)
    ensures Verdict(w, id, Ballot(cert, nonce, [])) == Verdict(w, id, EncryptBallot(cert, nonce, 0))
    ensures VoteOf(id, Ballot(cert, nonce, []), receipt) == Vote(id, cert, 0, receipt, nonce)
  {
  }

  /** The round trip a request makes: it may be lost on the way, or its response may. */
  datatype Trip = Trip(arrives: bool, comesBack: bool)

  /** The world tracks the tables, whatever receipts were issued. */
  ghost predicate InStep(w: World, d: Db) { Tracks(w, d) && Lawful(w) }

  /** The outcome a join has when the daemon rules so on it. */
  predicate OutcomeOf(outcome: JoinOutcome, ruling: Result)
  {
    match outcome
    case Admitted => ruling == Success
    case JoinNotFound => ruling == NotFound
    case JoinNotOpen => ruling == NotOpen
    case JoinNotEligible => ruling == NotEligible || ruling == CertInvalid || ruling == CertExpired
    case JoinTimeout => false
  }

  /** A ballot for an option, as the daemon opens it. */
  predicate IsVoteFor(b: Ballot, cert: string, option: int, nonce: string)
  {
    b.cert == cert && b.nonce == nonce && Choice(b) == option
  }

  /** What the daemon's world has recorded of a ballot, and what the voter was told. */
  ghost predicate Records(w: World, w': World, id: string, b: Ballot, status: Result, receipt: string)
  {
    && (w' == w || exists h :: w' == Voted(w, VoteOf(id, b, h)))
    && (status == Success ==> w' == Voted(w, VoteOf(id, b, receipt)))
    && (Answered(status) ==> status == Verdict(w, id, b))
  }

  /** What a submission of a session did: the world recorded a vote for that option with that nonce, or
      nothing; and the receipt kept is that vote's. */
  ghost predicate Votes(t: Ticket, w: World, w': World, option: int, nonce: string, status: Result, receipt: string)
  {
    && (w' == w || exists h :: w' == Voted(w, Vote(t.election, t.cert, option, h, nonce)))
    && (status == Success ==> w' == Voted(w, Vote(t.election, t.cert, option, receipt, nonce)))
    && (!t.joined ==> status == NotJoined && w' == w)
    && (t.joined && !(0 <= option <= 0xFF) ==> status == BadOption && w' == w)
    && (t.joined && 0 <= option <= 0xFF && Answered(status) ==>
          forall b :: IsVoteFor(b, t.cert, option, nonce) ==> status == Verdict(w, t.election, b))
  }

  lemma VotesMeans(t: Ticket, w: World, w': World, b: Ballot, option: int, nonce: string, status: Result,
                   receipt: string)
    requires t.joined && 0 <= option <= 0xFF && IsVoteFor(b, t.cert, option, nonce)
    requires Records(w, w', t.election, b, status, receipt)
    ensures Votes(t, w, w', option, nonce, status, receipt)
  {
    forall c | IsVoteFor(c, t.cert, option, nonce)
      ensures Verdict(w, t.election, c) == Verdict(w, t.election, b)
    {
    }
  }

  lemma OutcomeRead(status: Result, e: Option<Election>)
    requires !RuledOut(status) && (status == Success ==> e.Some? && e.value.state == Open)
    ensures if status == StoreFailed then ClassifyJoin(status, e) == JoinTimeout
            else OutcomeOf(ClassifyJoin(status, e), status)
  {
  }

  /** What a session remembers that matters to the store. */
  datatype Ticket = Ticket(joined: bool, cert: string, election: string, hasBallot: bool, version: int)

  /** bu_route_vote. */
  function RouteOf(t: Ticket): Action
  {
    if !t.joined then MustJoin else if !t.hasBallot then Cast else Update
  }

  /** What a join does to a session: admission takes over the store's count of the voter's ballots. */
  ghost predicate Joins(t: Ticket, t': Ticket, w: World, id: string, name: string, outcome: JoinOutcome)
  {
    match outcome
    case Admitted => t' == Ticket(true, name, id, CountOf(w.log, id, name) > 0, CountOf(w.log, id, name))
    case JoinNotOpen => t' == t.(joined := false, election := id)
    case _ => t' == t
  }

  /** The same before the count is known to be the store's. */
  function Noted(t: Ticket, outcome: JoinOutcome, id: string, name: string, has: bool, prior: int): Ticket
  {
    if outcome == Admitted then Ticket(true, name, id, has, prior)
    else if outcome == JoinNotOpen then t.(joined := false, election := id)
    else t
  }

  lemma JoinsMeans(t: Ticket, t': Ticket, w: World, id: string, name: string, outcome: JoinOutcome, has: bool,
                   prior: int)
    requires t' == Noted(t, outcome, id, name, has, prior)
    requires outcome == Admitted ==> prior == CountOf(w.log, id, name) && (has <==> CountOf(w.log, id, name) > 0)
    ensures Joins(t, t', w, id, name, outcome)
  {
  }

  /** A submission refused before anything is sent. */
  lemma RefusedHere(t: Ticket, w: World, option: int, nonce: string, status: Result, arrives: bool, receipt: string)
    requires if !t.joined then status == NotJoined else !(0 <= option <= 0xFF) && status == BadOption
    ensures Submits(t, t, w, w, status, arrives, receipt) && Votes(t, w, w, option, nonce, status, receipt)
  {
  }

  /** What a submission does to a session: its version moves exactly when it is told of success. */
  ghost predicate Submits(t: Ticket, t': Ticket, w: World, w': World, status: Result, arrives: bool, receipt: string)
  {
    && t' == t.(version := t.version + Told(status), hasBallot := t.hasBallot || status == Success)
    && Landed(status, w, w', t.election, t.cert, arrives, receipt)
    && (!t.joined ==> status == NotJoined)
  }

  function TicketAfter(t: Ticket, status: Result): Ticket
  {
    t.(version := t.version + Told(status), hasBallot := t.hasBallot || status == Success)
  }

  /** The session's note of a submission, its receipt kept only on success. */
  lemma Kept(t: Ticket, t': Ticket, w: World, w': World, b: Ballot, status: Result, arrives: bool, receipt: string,
             kept: string)
    requires t.joined && b.cert == t.cert && (status == Success ==> kept == receipt)
    requires t' == TicketAfter(t, status)
    requires Landed(status, w, w', t.election, b.cert, arrives, receipt)
    requires Records(w, w', t.election, b, status, receipt)
    ensures Submits(t, t', w, w', status, arrives, kept) && Records(w, w', t.election, b, status, kept)
  {
  }

  class VoterSession {
    var cert: string
    var joined: bool
    var election: string
    var hasBallot: bool
    var version: int
    var hash: string

    constructor ()
      ensures !joined
    {
      cert, joined, election, hasBallot, version, hash := "", false, "", false, 0, "";
    }

    function Now(): Ticket
      reads this
    {
      Ticket(joined, cert, election, hasBallot, version)
    }

    method Admit(id: string, name: string, has: bool, prior: int)
      modifies this
      ensures Now() == Ticket(true, name, id, has, prior) && hash == ""
    {
      joined, cert, election, hash := true, name, id, "";
      hasBallot, version := has, prior;
    }

    method Acknowledge(receipt: string)
      modifies this`hasBallot, this`version, this`hash
      ensures Now() == old(Now()).(hasBallot := true, version := old(version) + 1) && hash == receipt
    {
      hasBallot, version, hash := true, version + 1, receipt;
    }

    /** A success is acknowledged; any other status leaves the session as it was. */
    method Take(status: Result, receipt: string)
      modifies this`hasBallot, this`version, this`hash
      ensures Now() == TicketAfter(old(Now()), status)
      ensures hash == if status == Success then receipt else old(hash)
    {
      if status == Success {
        Acknowledge(receipt);
      }
    }

    /** bu_join. */
    method Join(ctx: Context, trip: Trip, id: string, name: string, ghost w: World) returns (outcome: JoinOutcome)
      requires ctx.txn == null
      modifies this, ctx, ctx.net, ctx.store
      ensures ctx.txn == null && ctx.store.tables == old(ctx.store.tables) && ctx.net.clock >= old(ctx.net.clock)
      ensures InStep(w, ctx.store.tables) ==> Joins(old(Now()), Now(), w, id, name, outcome)
      // the outcome is the one the world rules, unless a message or an exchange failed
      ensures InStep(w, ctx.store.tables) && outcome != JoinTimeout ==> OutcomeOf(outcome, Ruling(w, Enter(id, name)))
      ensures outcome == JoinTimeout && trip.arrives && trip.comesBack ==> ctx.net.Troubled()
      ensures !(trip.arrives && trip.comesBack) ==> outcome == JoinTimeout
    {
      var has, prior;
      outcome, has, prior := AskJoin(ctx, trip, id, name, w);
      Note(outcome, id, name, has, prior);
      if InStep(w, ctx.store.tables) {
        JoinsMeans(old(Now()), Now(), w, id, name, outcome, has, prior);
      }
    }

    /** What the outcome of a join leaves in the session. */
    method Note(outcome: JoinOutcome, id: string, name: string, has: bool, prior: int)
      modifies this
      ensures Now() == Noted(old(Now()), outcome, id, name, has, prior)
    {
      if outcome == Admitted {
        Admit(id, name, has, prior);
      } else if outcome == JoinNotOpen {
        joined, election := false, id;
      }
    }

    /** bu_submit_vote. */
    method SubmitVote(ctx: Context, trip: Trip, option: int, nonce: string, ghost w: World)
      returns (status: Result, ghost w': World)
      requires ctx.txn == null
      modifies this`hasBallot, this`version, this`hash, ctx, ctx.net, ctx.store
      ensures ctx.txn == null && ctx.net.clock >= old(ctx.net.clock)
      ensures old(InStep(w, ctx.store.tables)) ==>
                InStep(w', ctx.store.tables) && Submits(old(Now()), Now(), w, w', status, trip.arrives, hash)
      ensures old(InStep(w, ctx.store.tables)) ==> Votes(old(Now()), w, w', option, nonce, status, hash)
      // the status is the one the world rules, unless a message or an exchange failed
      ensures !Answered(status) && trip.arrives && trip.comesBack && old(OwnersBacked(ctx.store.tables)) ==>
                ctx.net.Troubled()
      ensures old(joined) && 0 <= option <= 0xFF && !(trip.arrives && trip.comesBack) ==> status == StoreFailed
      ensures status != Success ==> hash == old(hash)
    {
      w' := w;
      if RouteOf(Now()) == MustJoin || !(0 <= option <= 0xFF) {
        status := if RouteOf(Now()) == MustJoin then NotJoined else BadOption;
        RefusedHere(Now(), w, option, nonce, status, trip.arrives, hash);
      } else {
        status, w' := Cast(ctx, trip, option, nonce, w);
      }
    }

    /** The submission of a joined session. */
    method Cast(ctx: Context, trip: Trip, option: int, nonce: string, ghost w: World)
      returns (status: Result, ghost w': World)
      requires ctx.txn == null && joined && 0 <= option <= 0xFF
      modifies this`hasBallot, this`version, this`hash, ctx, ctx.net, ctx.store
      ensures ctx.txn == null && ctx.net.clock >= old(ctx.net.clock)
      ensures old(InStep(w, ctx.store.tables)) ==>
                && InStep(w', ctx.store.tables) && Submits(old(Now()), Now(), w, w', status, trip.arrives, hash)
                && Votes(old(Now()), w, w', option, nonce, status, hash)
      ensures !Answered(status) && trip.arrives && trip.comesBack && old(OwnersBacked(ctx.store.tables)) ==>
                ctx.net.Troubled()
      ensures !(trip.arrives && trip.comesBack) ==> status == StoreFailed
      ensures status != Success ==> hash == old(hash)
    {
      ghost var t, tracked := Now(), InStep(w, ctx.store.tables);
      var b := EncryptBallot(cert, nonce, option);
      status, w' := Transmit(ctx, trip, b, w);
      if tracked {
        VotesMeans(t, w, w', b, option, nonce, status, hash);
      }
    }

    /** The exchange, and the session's note of it. */
    method Transmit(ctx: Context, trip: Trip, b: Ballot, ghost w: World) returns (status: Result, ghost w': World)
      requires ctx.txn == null && joined && b.cert == cert
      modifies this`hasBallot, this`version, this`hash, ctx, ctx.net, ctx.store
      ensures ctx.txn == null && ctx.net.clock >= old(ctx.net.clock)
      ensures old(InStep(w, ctx.store.tables)) ==>
                && InStep(w', ctx.store.tables) && Submits(old(Now()), Now(), w, w', status, trip.arrives, hash)
                && Records(w, w', election, b, status, hash)
      ensures !Answered(status) && trip.arrives && trip.comesBack && old(OwnersBacked(ctx.store.tables)) ==>
                ctx.net.Troubled()
      ensures !(trip.arrives && trip.comesBack) ==> status == StoreFailed
      ensures status != Success ==> hash == old(hash)
    {
      ghost var t, tracked := Now(), InStep(w, ctx.store.tables);
      var receipt;
      status, receipt, w' := SendVote(ctx, trip, election, b, w);
      assert Now() == t;
      Take(status, receipt);
      if tracked {
        Kept(t, Now(), w, w', b, status, trip.arrives, receipt, hash);
      }
    }
  }

  function Told(status: Result): int { if status == Success then 1 else 0 }

  /** How many ballots of the voter landed between two worlds. */
  function Gained(w: World, w': World, id: string, cert: string): int
  {
    CountOf(w'.log, id, cert) - CountOf(w.log, id, cert)
  }

  /** The receipts of a voter's ballots. */
  function Receipts(w: World, id: string, cert: string): set<string>
  {
    set j | 0 <= j < |w.log| && By(w.log[j], id, cert) :: w.log[j].hash
  }

  /** What a submission did: a ballot lands without the voter being told only when the store or
      the reply failed after the request got through. */
  ghost predicate Landed(status: Result, w: World, w': World, id: string, cert: string, arrives: bool, receipt: string)
  {
    && Told(status) <= Gained(w, w', id, cert) <= 1
    && (status == Success ==> receipt in Receipts(w', id, cert))
    && (Gained(w, w', id, cert) > Told(status) ==> status == StoreFailed && arrives)
  }

  /** A status no join is ever answered with. */
  predicate RuledOut(r: Result)
  {
    !(r == Success || r == NotFound || r == CertInvalid || r == NotEligible || r == NotOpen || r == StoreFailed)
  }

  /** The JOIN exchange: a lost message reads as a store failure. */
  method SendJoin(ctx: Context, trip: Trip, id: string, name: string, ghost w: World)
    returns (status: Result, e: Option<Election>, has: bool, version: int)
    requires ctx.txn == null
    modifies ctx, ctx.net, ctx.store
    ensures ctx.txn == null && ctx.store.tables == old(ctx.store.tables) && ctx.net.clock >= old(ctx.net.clock)
    ensures InStep(w, ctx.store.tables) && status == Success ==>
              version == CountOf(w.log, id, name) && (has <==> CountOf(w.log, id, name) > 0)
    ensures status == Success ==> e.Some? && e.value.state == Open
    ensures InStep(w, ctx.store.tables) && Answered(status) ==> status == Ruling(w, Enter(id, name))
    ensures status != StoreRetry && !RuledOut(status)
    ensures status == StoreFailed && trip.arrives && trip.comesBack ==> ctx.net.Troubled()
    ensures !(trip.arrives && trip.comesBack) ==> status == StoreFailed
  {
    status, e, has, version := StoreFailed, None, false, 0;
    if !trip.arrives {
      return;
    }
    ghost var fellBack;
    var resp;
    resp, fellBack := ctx.Dispatch(Enter(id, name));
    if trip.comesBack && resp.body.Entered? {
      status, e, has, version := resp.status, resp.body.election, resp.body.hasBallot, resp.body.version;
      if status == Success && InStep(w, ctx.store.tables) {
        EnterStep(w, ctx.store.tables, id, name, e.value, has, version);
      }
      if Answered(status) && InStep(w, ctx.store.tables) {
        JoinRuling(w, ctx.store.tables, id, name, status);
      }
    }
  }

  /** The JOIN exchange and what it comes to. */
  method AskJoin(ctx: Context, trip: Trip, id: string, name: string, ghost w: World)
    returns (outcome: JoinOutcome, has: bool, version: int)
    requires ctx.txn == null
    modifies ctx, ctx.net, ctx.store
    ensures ctx.txn == null && ctx.store.tables == old(ctx.store.tables) && ctx.net.clock >= old(ctx.net.clock)
    ensures InStep(w, ctx.store.tables) && outcome == Admitted ==>
              version == CountOf(w.log, id, name) && (has <==> CountOf(w.log, id, name) > 0)
    ensures InStep(w, ctx.store.tables) && outcome != JoinTimeout ==> OutcomeOf(outcome, Ruling(w, Enter(id, name)))
    ensures outcome == JoinTimeout && trip.arrives && trip.comesBack ==> ctx.net.Troubled()
    ensures !(trip.arrives && trip.comesBack) ==> outcome == JoinTimeout
  {
    var status, e;
    status, e, has, version := SendJoin(ctx, trip, id, name, w);
    outcome := ClassifyJoin(status, e);
    OutcomeRead(status, e);
  }

  /** The CAST or UPDATE exchange; the daemon treats both alike. */
  method SendVote(ctx: Context, trip: Trip, id: string, b: Ballot, ghost w: World)
    returns (status: Result, receipt: string, ghost w': World)
    requires ctx.txn == null
    modifies ctx, ctx.net, ctx.store
    ensures ctx.txn == null && ctx.net.clock >= old(ctx.net.clock)
    ensures old(InStep(w, ctx.store.tables)) ==>
              && InStep(w', ctx.store.tables) && Landed(status, w, w', id, b.cert, trip.arrives, receipt)
              && Records(w, w', id, b, status, receipt)
    ensures !Answered(status) && trip.arrives && trip.comesBack && old(OwnersBacked(ctx.store.tables)) ==>
              ctx.net.Troubled()
    ensures !(trip.arrives && trip.comesBack) ==> status == StoreFailed
  {
    status, receipt, w' := StoreFailed, "", w;
    if trip.arrives {
      var resp;
      resp, w' := Deliver(ctx, id, b, w);
      // the codec has no name for StoreRetry, so that response is never sent back
      if trip.comesBack && resp.status != StoreRetry {
        status, receipt := resp.status, ReceiptIn(resp);
      }
    }
  }

  function ReceiptIn(resp: Response): string { if resp.body.Receipt? then resp.body.hash else "" }

  /** The daemon's side of a submission. */
  method Deliver(ctx: Context, id: string, b: Ballot, ghost w: World) returns (resp: Response, ghost w': World)
    requires ctx.txn == null
    modifies ctx, ctx.net, ctx.store
    ensures ctx.txn == null && ctx.net.clock >= old(ctx.net.clock)
    ensures old(InStep(w, ctx.store.tables)) ==>
              && InStep(w', ctx.store.tables) && Landed(resp.status, w, w', id, b.cert, true, ReceiptIn(resp))
              && Records(w, w', id, b, resp.status, ReceiptIn(resp))
    ensures !Answered(resp.status) && old(OwnersBacked(ctx.store.tables)) ==> ctx.net.Troubled()
  {
    ghost var d := ctx.store.tables;
    ghost var fellBack;
    resp, fellBack := ctx.Dispatch(Submit(id, b));
    w' := w;
    if InStep(w, d) {
      w' := SubmitTracks(ctx.issue, w, d, ctx.store.tables, id, b, resp);
      VoteCounted(w, w', id, b, resp);
    }
  }

  /** A submission moves the voter's count by one exactly when it lands. */
  lemma VoteCounted(w: World, w': World, id: string, b: Ballot, resp: Response)
    requires LawfulStep(w, w', Submit(id, b), resp)
    ensures Landed(resp.status, w, w', id, b.cert, true, ReceiptIn(resp))
    ensures Records(w, w', id, b, resp.status, ReceiptIn(resp))
  {
    if w' != w {
      var hash :| Verdict(w, id, b) == Success && w' == Voted(w, VoteOf(id, b, hash));
      assert w'.log[..|w.log|] == w.log;
    }
    if resp.status == Success {
      assert w' == Voted(w, VoteOf(id, b, resp.body.hash));
      assert w'.log[|w.log|] == VoteOf(id, b, resp.body.hash);
      assert w'.log[..|w.log|] == w.log;
    }
  }

  /** Whatever others do, a joined session never gets ahead of the store. */
  lemma {:induction false} OthersOnlyAdd(w: World, w': World, id: string, cert: string)
    requires Later(w, w')
    ensures CountOf(w.log, id, cert) <= CountOf(w'.log, id, cert)
  {
    assert w'.log[..|w.log|] == w.log;
    CountGrows(w'.log, id, cert, |w.log|);
  }

  // ---- a session's life

  /** What happened next: the session acted, or somebody else's requests were served. */
  datatype Turn =
    | Joined(id: string, name: string, outcome: JoinOutcome)
    | Submitted(status: Result, arrives: bool, receipt: string)
    | Elsewhere

  ghost predicate Turned(t: Ticket, t': Ticket, w: World, w': World, turn: Turn)
  {
    match turn
    case Joined(id, name, outcome) => w' == w && Joins(t, t', w, id, name, outcome)
    case Submitted(status, arrives, receipt) => Submits(t, t', w, w', status, arrives, receipt)
    case Elsewhere => t' == t && Later(w, w')
  }

  ghost predicate IsLife(ts: seq<Ticket>, ws: seq<World>, turns: seq<Turn>)
  {
    && |ts| == |ws| == |turns| + 1 && !ts[0].joined
    && forall i :: 0 <= i < |turns| ==> TurnedAt(ts, ws, turns, i)
  }

  ghost predicate TurnedAt(ts: seq<Ticket>, ws: seq<World>, turns: seq<Turn>, i: nat)
  {
    |ts| == |ws| == |turns| + 1 && i < |turns| && Turned(ts[i], ts[i + 1], ws[i], ws[i + 1], turns[i])
  }

  /** The voter's ballots that landed during one turn without the session being told. */
  function UntoldIn(t: Ticket, w: World, w': World, turn: Turn): int
  {
    Gained(w, w', t.election, t.cert) - if turn.Submitted? then Told(turn.status) else 0
  }

  predicate IsAdmission(turn: Turn) { turn.Joined? && turn.outcome == Admitted }

  /** The untold ballots since the last admission. */
  function Untold(ts: seq<Ticket>, ws: seq<World>, turns: seq<Turn>, i: nat): int
    requires |ts| == |ws| == |turns| + 1 && i <= |turns|
  {
    if i == 0 || IsAdmission(turns[i - 1]) then 0
    else Untold(ts, ws, turns, i - 1) + UntoldIn(ts[i - 1], ws[i - 1], ws[i], turns[i - 1])
  }

  /** A joined session is behind the store by exactly what it was not told, and never ahead. */
  predicate Follows(t: Ticket, w: World, untold: int)
  {
    t.joined ==>
      && untold >= 0 && t.version >= 0
      && t.version + untold == CountOf(w.log, t.election, t.cert)
      && (t.hasBallot <==> t.version > 0)
  }

  lemma UntoldGrows(t: Ticket, t': Ticket, w: World, w': World, turn: Turn)
    requires Turned(t, t', w, w', turn)
    ensures UntoldIn(t, w, w', turn) >= 0
  {
    if turn.Elsewhere? {
      OthersOnlyAdd(w, w', t.election, t.cert);
    }
  }

  lemma TurnFollows(t: Ticket, t': Ticket, w: World, w': World, turn: Turn, untold: int)
    requires Turned(t, t', w, w', turn) && Follows(t, w, untold)
    ensures Follows(t', w', if IsAdmission(turn) then 0 else untold + UntoldIn(t, w, w', turn))
  {
    UntoldGrows(t, t', w, w', turn);
  }

  /** Through joins, submissions, lost replies and everybody else's requests, the local version
      never exceeds the store's, and falls short by exactly the untold ballots. */
  lemma {:induction false} NeverAhead(ts: seq<Ticket>, ws: seq<World>, turns: seq<Turn>, i: nat)
    requires IsLife(ts, ws, turns) && i <= |turns|
    ensures Follows(ts[i], ws[i], Untold(ts, ws, turns, i))
    ensures ts[i].joined ==> ts[i].version <= CountOf(ws[i].log, ts[i].election, ts[i].cert)
  {
    if i > 0 {
      NeverAhead(ts, ws, turns, i - 1);
      assert TurnedAt(ts, ws, turns, i - 1);
      TurnFollows(ts[i - 1], ts[i], ws[i - 1], ws[i], turns[i - 1], Untold(ts, ws, turns, i - 1));
    }
  }

  /** The same against the tables: a joined session's version and its untold ballots add up to the
      version of the voter's owner row, or to nothing if there is none. */
  lemma NeverAheadOfRow(ts: seq<Ticket>, ws: seq<World>, turns: seq<Turn>, i: nat, d: Db, prior: Option<OwnerRow>)
    requires IsLife(ts, ws, turns) && i <= |turns| && ts[i].joined && InStep(ws[i], d)
    requires FindsOwner(d, ts[i].election, ts[i].cert, prior)
    ensures ts[i].version + Untold(ts, ws, turns, i) == if prior.Some? then prior.value.version else 0
    ensures 0 <= ts[i].version && 0 <= Untold(ts, ws, turns, i)
  {
    NeverAhead(ts, ws, turns, i);
    PriorIsLast(ws[i].log, d, ts[i].election, ts[i].cert, prior);
  }

  // ---- when the session knows all its ballots

  /** Nothing can land untold in this turn: the session's own submission was lost on the way or
      answered, and nobody else cast the voter's ballot. */
  ghost predicate Informed(t: Ticket, w: World, w': World, turn: Turn)
  {
    match turn
    case Joined(_, _, _) => true
    case Submitted(status, arrives, _) => status != StoreFailed || !arrives
    case Elsewhere => forall k :: |w.log| <= k < |w'.log| ==> !By(w'.log[k], t.election, t.cert)
  }

  lemma {:induction false} QuietCount(log: seq<Vote>, log': seq<Vote>, id: string, cert: string)
    requires log <= log' && forall k :: |log| <= k < |log'| ==> !By(log'[k], id, cert)
    ensures CountOf(log', id, cert) == CountOf(log, id, cert)
  {
    if log != log' {
      var init := log'[..|log'| - 1];
      assert log <= init && forall k :: |log| <= k < |init| ==> init[k] == log'[k];
      QuietCount(log, init, id, cert);
    }
  }

  lemma InformedTold(t: Ticket, t': Ticket, w: World, w': World, turn: Turn)
    requires Turned(t, t', w, w', turn) && Informed(t, w, w', turn)
    ensures UntoldIn(t, w, w', turn) == 0
  {
    if turn.Elsewhere? {
      QuietCount(w.log, w'.log, t.election, t.cert);
    }
  }

  ghost predicate ToldAt(ts: seq<Ticket>, ws: seq<World>, turns: seq<Turn>, k: nat)
  {
    |ts| == |ws| == |turns| + 1 && k < |turns| && UntoldIn(ts[k], ws[k], ws[k + 1], turns[k]) == 0
  }

  /** After an admission and until the next one, nothing is untold exactly when every turn told all. */
  lemma {:induction false} UntoldExactly(ts: seq<Ticket>, ws: seq<World>, turns: seq<Turn>, m: nat, i: nat)
    requires IsLife(ts, ws, turns) && m < i <= |turns| && IsAdmission(turns[m])
    requires forall k :: m < k < i ==> !IsAdmission(turns[k])
    ensures Untold(ts, ws, turns, i) >= 0
    ensures Untold(ts, ws, turns, i) == 0 <==> forall k :: m < k < i ==> ToldAt(ts, ws, turns, k)
  {
    if i > m + 1 {
      UntoldExactly(ts, ws, turns, m, i - 1);
      assert TurnedAt(ts, ws, turns, i - 1);
      UntoldGrows(ts[i - 1], ts[i], ws[i - 1], ws[i], turns[i - 1]);
      assert ToldAt(ts, ws, turns, i - 1) <==> UntoldIn(ts[i - 1], ws[i - 1], ws[i], turns[i - 1]) == 0;
    }
  }

  /** The version is the store's if and only if since the admission every turn told the session of
      all the voter's ballots that landed. */
  lemma InSyncExactly(ts: seq<Ticket>, ws: seq<World>, turns: seq<Turn>, m: nat, i: nat)
    requires IsLife(ts, ws, turns) && m < i <= |turns| && IsAdmission(turns[m])
    requires (forall k :: m < k < i ==> !IsAdmission(turns[k])) && ts[i].joined
    ensures ts[i].version == CountOf(ws[i].log, ts[i].election, ts[i].cert)
            <==> forall k :: m < k < i ==> ToldAt(ts, ws, turns, k)
  {
    NeverAhead(ts, ws, turns, i);
    UntoldExactly(ts, ws, turns, m, i);
  }

  lemma {:induction false} NothingUntold(ts: seq<Ticket>, ws: seq<World>, turns: seq<Turn>, m: nat, i: nat)
    requires IsLife(ts, ws, turns) && m < i <= |turns| && IsAdmission(turns[m])
    requires forall k :: m < k < i ==> Informed(ts[k], ws[k], ws[k + 1], turns[k])
    ensures Untold(ts, ws, turns, i) == 0
  {
    if i > m + 1 {
      NothingUntold(ts, ws, turns, m, i - 1);
      assert TurnedAt(ts, ws, turns, i - 1);
      assert Informed(ts[i - 1], ws[i - 1], ws[i], turns[i - 1]);
      InformedTold(ts[i - 1], ts[i], ws[i - 1], ws[i], turns[i - 1]);
    }
  }

  /** If since some admission no submission that got through was left unanswered and nobody else cast
      the voter's ballot, the version is the store's and the next vote is routed as the store would:
      an update exactly when the voter has a ballot. */
  lemma RouteMatchesStore(ts: seq<Ticket>, ws: seq<World>, turns: seq<Turn>, m: nat, i: nat)
    requires IsLife(ts, ws, turns) && m < i <= |turns| && IsAdmission(turns[m]) && ts[i].joined
    requires forall k :: m < k < i ==> Informed(ts[k], ws[k], ws[k + 1], turns[k])
    ensures ts[i].version == CountOf(ws[i].log, ts[i].election, ts[i].cert)
    ensures RouteOf(ts[i]) == Cast <==> LastOf(ws[i].log, ts[i].election, ts[i].cert).None?
    ensures RouteOf(ts[i]) == Update <==> LastOf(ws[i].log, ts[i].election, ts[i].cert).Some?
  {
    NeverAhead(ts, ws, turns, i);
    NothingUntold(ts, ws, turns, m, i);
    CountNoLast(ws[i].log, ts[i].election, ts[i].cert);
  }

  // ---- the sessions the code makes

  /** What a session does next, or what the daemon is asked by others. */
  datatype Act =
    | DoJoin(id: string, name: string, trip: Trip)
    | DoSubmit(option: int, nonce: string, trip: Trip)
    | Others(req: Request)

  /** A life goes on by any turn. */
  lemma ExtendLife(ts: seq<Ticket>, ws: seq<World>, turns: seq<Turn>, t: Ticket, w: World, turn: Turn)
    requires IsLife(ts, ws, turns) && Turned(ts[|turns|], t, ws[|turns|], w, turn)
    ensures IsLife(ts + [t], ws + [w], turns + [turn])
  {
    forall i | 0 <= i < |turns| + 1
      ensures TurnedAt(ts + [t], ws + [w], turns + [turn], i)
    {
      assert i < |turns| ==> TurnedAt(ts, ws, turns, i);
    }
  }

  /** A creation whose allocated id may be taken: the largest number is in use and so is the id it wraps
      to, or E-100 is in use and the store may not have answered. */
  ghost predicate MayCollide(d: Db, act: Act, troubled: bool)
  {
    && act.Others? && act.req.CreateElection? && act.req.desired == ""
    && (!NumbersOk(d, false) || (troubled && !NumbersOk(d, true)))
  }

  /** One act against the daemon, a turn of the session's life unless the act is a creation that may
      collide. */
  method Do(s: VoterSession, ctx: Context, act: Act, ghost w: World)
    returns (ghost w': World, ghost turn: Turn, ghost numbered: bool)
    requires ctx.txn == null
    modifies s, ctx, ctx.net, ctx.store
    ensures ctx.txn == null && ctx.net.clock >= old(ctx.net.clock)
    ensures old(InStep(w, ctx.store.tables)) && numbered ==>
              InStep(w', ctx.store.tables) && Turned(old(s.Now()), s.Now(), w, w', turn)
    ensures !numbered ==> MayCollide(old(ctx.store.tables), act, ctx.net.Troubled())
  {
    w', turn, numbered := w, Elsewhere, true;
    match act {
      case DoJoin(id, name, trip) =>
        var outcome := s.Join(ctx, trip, id, name, w);
        turn := Joined(id, name, outcome);
      case DoSubmit(option, nonce, trip) =>
        var status;
        status, w' := s.SubmitVote(ctx, trip, option, nonce, w);
        turn := Submitted(status, trip.arrives, s.hash);
      case Others(req) =>
        ghost var d := ctx.store.tables;
        ghost var fellBack;
        var resp;
        resp, fellBack := ctx.Dispatch(req);
        numbered := Numbered(d, ctx.store.tables, req, fellBack);
        if numbered && InStep(w, d) {
          w' := StepTracks(ctx.issue, w, d, ctx.store.tables, req, resp, fellBack);
          StepLater(w, w', req, resp);
        }
    }
  }

  /** The stores of a life, each tracked by the world of its moment. */
  ghost predicate Keeps(ws: seq<World>, ds: seq<Db>)
  {
    |ws| == |ds| && forall i :: 0 <= i < |ws| ==> KeptAt(ws, ds, i)
  }

  ghost predicate KeptAt(ws: seq<World>, ds: seq<Db>, i: nat)
  {
    i < |ws| && i < |ds| && InStep(ws[i], ds[i])
  }

  lemma ExtendKeeps(ws: seq<World>, ds: seq<Db>, w: World, d: Db)
    requires Keeps(ws, ds) && InStep(w, d)
    ensures Keeps(ws + [w], ds + [d])
  {
    forall i | 0 <= i < |ws| + 1
      ensures KeptAt(ws + [w], ds + [d], i)
    {
      if i < |ws| {
        assert KeptAt(ws, ds, i);
        assert (ws + [w])[i] == ws[i] && (ds + [d])[i] == ds[i];
      }
    }
  }

  /** Whatever a session does, whatever others ask in between and whatever is lost, it leads a life; the
      whole of its acts, or all up to a creation that may collide. */
  method Live(s: VoterSession, ctx: Context, acts: seq<Act>, ghost w: World)
    returns (ghost ts: seq<Ticket>, ghost ws: seq<World>, ghost ds: seq<Db>, ghost turns: seq<Turn>,
             ghost numbered: bool)
    requires ctx.txn == null && InStep(w, ctx.store.tables) && !s.joined
    modifies s, ctx, ctx.net, ctx.store
    ensures ctx.txn == null && IsLife(ts, ws, turns) && Keeps(ws, ds)
    ensures ts[0] == old(s.Now()) && ws[0] == w && ds[0] == old(ctx.store.tables)
    ensures numbered ==> |turns| == |acts| && ts[|acts|] == s.Now() && ds[|acts|] == ctx.store.tables
    ensures !numbered ==> |turns| < |acts| && MayCollide(ds[|turns|], acts[|turns|], ctx.net.Troubled())
  {
    ts, ws, ds, turns, numbered := [s.Now()], [w], [ctx.store.tables], [], true;
    assert KeptAt(ws, ds, 0);
    for k := 0 to |acts|
      invariant ctx.txn == null && IsLife(ts, ws, turns) && Keeps(ws, ds)
      invariant ts[0] == old(s.Now()) && ws[0] == w && ds[0] == old(ctx.store.tables)
      invariant numbered ==> |turns| == k && ts[k] == s.Now() && ds[k] == ctx.store.tables
      invariant !numbered ==> |turns| < k && MayCollide(ds[|turns|], acts[|turns|], ctx.net.Troubled())
      invariant ctx.net.clock >= old(ctx.net.clock)
    {
      ghost var w', turn, free;
      assert KeptAt(ws, ds, |turns|);
      w', turn, free := Do(s, ctx, acts[k], ws[|turns|]);
      if numbered && free {
        ExtendKeeps(ws, ds, w', ctx.store.tables);
        ExtendLife(ts, ws, turns, s.Now(), w', turn);
        ts, ws, ds, turns := ts + [s.Now()], ws + [w'], ds + [ctx.store.tables], turns + [turn];
      }
      numbered := numbered && free;
    }
  }
}
