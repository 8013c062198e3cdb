/**
 libballotbrain's handlers (handlers.c, lifecycle.c, txn.c, bb_alloc_id) over a store whose
 every exchange may fail, and the dispatcher that feeds them one request at a time.
 */
module Brain {
  import opened Options
  import opened Tables
  import opened Session
  import opened Connection
  import opened Decimal
  import opened ElectionId
  import opened Commands

  const TXN_ATTEMPTS := 3
  const SELF_RETRY_ATTEMPTS := 3

  /** An encrypted ballot; the placeholder encryption carries the option in the first byte. */
  datatype Ballot = Ballot(cert: string, nonce: string, payload: seq<nat>)

  function Choice(b: Ballot): int { if |b.payload| > 0 then b.payload[0] else 0 }

  // ---- what recording a ballot means

  predicate LegalTransition(from: State, to: State)
  {
    match from
    case Draft => to == Open
    case Open => to == Closed
    case Closed => to == Published
    case Published => false
  }

  /** Why a ballot is refused, or Success. */
  function Gate(e: Election, seen: bool, b: Ballot): Result
  {
    if e.state == Closed || e.state == Published then AlreadyClosed
    else if e.state != Open then NotOpen
    else if b.cert !in e.eligible then NotEligible
    else if !(0 <= Choice(b) < e.optionCount) then BadOption
    else if seen then Replayed
    else Success
  }

  /** The rows one attempt read before it wrote. */
  datatype Reading = Reading(election: Election, prior: Option<OwnerRow>, replaced: BallotRow)

  function NewVersion(prior: Option<OwnerRow>): int { if prior.Some? then prior.value.version + 1 else 1 }

  function NewBallotRow(id: string, b: Ballot, hash: string, prior: Option<OwnerRow>): BallotRow
  {
    BallotRow(id, hash, Choice(b), NewVersion(prior), false)
  }

  ghost function WithBallot(d: Db, row: BallotRow): Db { d.(ballots := d.ballots + multiset{row}) }

  ghost function WithNonce(d: Db, row: NonceRow): Db { d.(nonces := d.nonces + multiset{row}) }

  /** The prior ballot's receipt is on some row. */
  ghost predicate Backed(d: Db, id: string, prior: Option<OwnerRow>)
  {
    prior.Some? ==> HasHash(d, id, prior.value.hash)
  }

  /** The whole write set of one accepted ballot. */
  ghost function AfterBallot(d: Db, id: string, b: Ballot, hash: string, prior: Option<OwnerRow>,
                             replaced: BallotRow): Db
  {
    var d1 := WithBallot(d, NewBallotRow(id, b, hash, prior));
    var d2 := if prior.Some? then WithSuperseded(d1, replaced) else d1;
    var d3 := WithOwner(d2, OwnerRow(id, b.cert, hash, NewVersion(prior)));
    WithNonce(d3, NonceRow(id, b.nonce))
  }

  ghost predicate RecordedBy(issue: (string, int) -> string, d: Db, d': Db, id: string, b: Ballot, hash: string,
                             rd: Reading)
  {
    && IsElection(d, id, rd.election)
    && Gate(rd.election, NonceRow(id, b.nonce) in d.nonces, b) == Success
    && FindsOwner(d, id, b.cert, rd.prior)
    && hash == issue(b.nonce, NewVersion(rd.prior))
    && (rd.prior.Some? ==>
          && rd.replaced in d.ballots + multiset{NewBallotRow(id, b, hash, rd.prior)}
          && HashIs(id, rd.prior.value.hash)(rd.replaced))
    && d' == AfterBallot(d, id, b, hash, rd.prior, rd.replaced)
  }

  ghost predicate Recorded(issue: (string, int) -> string, d: Db, d': Db, id: string, b: Ballot, hash: string)
  {
    exists rd :: RecordedBy(issue, d, d', id, b, hash, rd)
  }

  /** The refusal `r` is the one the loaded election and the nonce table call for. */
  ghost predicate Refused(d: Db, id: string, b: Ballot, r: Result)
  {
    if r == NotFound then Unused(d, id)
    else exists e :: IsElection(d, id, e) && Gate(e, NonceRow(id, b.nonce) in d.nonces, b) == r
  }

  // ---- how the other requests are ruled on once their election is loaded

  function MoveGate(e: Election, to: State): Result
  {
    if LegalTransition(e.state, to) then Success else IllegalTransition
  }

  function JoinGate(e: Election, cert: string): Result
  {
    if cert == "" then CertInvalid
    else if cert !in e.eligible then NotEligible
    else if e.state != Open then NotOpen
    else Success
  }

  function ResultsGate(e: Election, who: Option<string>): Result
  {
    if e.state != Published then NotPublished
    else if who.Some? && who.value !in e.eligible then NotEligible
    else Success
  }

  // ---- what the other requests mean

  ghost predicate MayMove(d: Db, id: string, e: Election, to: State)
  {
    IsElection(d, id, e) && LegalTransition(e.state, to)
  }

  ghost predicate MayMoveTo(d: Db, id: string, to: State) { exists e :: MayMove(d, id, e, to) }

  ghost predicate RowMoved(d: Db, d': Db, id: string, to: State) { exists row :: MovesRow(d, d', id, row, to) }

  ghost predicate StateMoved(d: Db, d': Db, id: string, to: State)
  {
    MayMoveTo(d, id, to) && RowMoved(d, d', id, to)
  }

  /** strcmp(a, b) < 0. */
  predicate Before(a: string, b: string)
  {
    if b == "" then false
    else if a == "" then true
    else a[0] < b[0] || (a[0] == b[0] && Before(a[1..], b[1..]))
  }

  function ValidateConfig(c: Config): Result
  {
    if c.title == "" then BadTitle
    else if |c.options| < 2 then BadOptions
    else if !Before(c.openTime, c.closeTime) then BadTime
    else Success
  }

  /** The id a creation settles on: the operator's, or one past the largest number in use. */
  ghost predicate IdChosen(d: Db, desired: string, fellBack: bool, id: string)
  {
    if desired != "" then id == desired && Unused(d, id)
    else if fellBack then id == IdOf(FIRST_NUMBER)
    else Allocates(d, id) && exists max :: IsMaxNumber(d, max) && id == IdOf(NextNumber(max))
  }

  ghost predicate CreateRuled(d: Db, c: Config, desired: string, r: Result)
  {
    if ValidateConfig(c) != Success then r == ValidateConfig(c)
    else if r == IdTaken then desired != "" && !Unused(d, desired)
    else r == Success
  }

  ghost predicate MoveRuled(d: Db, id: string, to: State, r: Result)
  {
    if r == NotFound then Unused(d, id) else exists e :: IsElection(d, id, e) && MoveGate(e, to) == r
  }

  ghost predicate JoinRuled(d: Db, id: string, cert: string, r: Result)
  {
    if r == NotFound then Unused(d, id) else exists e :: IsElection(d, id, e) && JoinGate(e, cert) == r
  }

  ghost predicate ResultsRuled(d: Db, id: string, who: Option<string>, r: Result)
  {
    if r == NotFound then Unused(d, id) else exists e :: IsElection(d, id, e) && ResultsGate(e, who) == r
  }

  /** A live row with the receipt, and the name of its option; or the certainty that there is none. */
  ghost predicate LookedUp(d: Db, id: string, hash: string, r: Result, row: Option<BallotRow>, name: string)
  {
    if r == NotFound then Unused(d, id) || FindsLive(d, id, hash, None)
    else
      && r == Success && row.Some? && FindsLive(d, id, hash, row)
      && exists e :: IsElection(d, id, e) && NameIn(e, row.value.option, name)
  }

  predicate NameIn(e: Election, option: int, name: string)
  {
    |e.options| == MAX_OPTIONS && e.optionCount <= MAX_OPTIONS
    && name == if 0 <= option < e.optionCount then e.options[option] else ""
  }

  ghost predicate Created(d: Db, d': Db, c: Config, desired: string, fellBack: bool, id: string)
  {
    ValidateConfig(c) == Success && IdChosen(d, desired, fellBack, id) && d' == WithElection(d, id, c)
  }

  datatype Results = Results(title: string, optionCount: nat, tally: seq<nat>, options: seq<string>,
                             rows: seq<BallotRow>)

  ghost predicate AreResults(d: Db, id: string, res: Results)
  {
    && (exists e :: && IsElection(d, id, e) && e.state == Published
                    && res.title == e.title && res.optionCount == e.optionCount
                    && res.options == e.options[..e.optionCount])
    && |res.tally| == res.optionCount <= MAX_OPTIONS
    && (forall i :: 0 <= i < res.optionCount ==> res.tally[i] == |Filter(d.ballots, LiveFor(id, i))|)
    && AreHashes(d, id, res.rows)
  }

  ghost predicate JoinedTo(d: Db, id: string, cert: string, e: Election, hasBallot: bool, version: int)
  {
    && IsElection(d, id, e) && e.state == Open && cert in e.eligible
    && exists prior :: && FindsOwner(d, id, cert, prior)
                       && hasBallot == prior.Some?
                       && version == if prior.Some? then prior.value.version else 0
  }

  // ---- requests and one step of the daemon

  datatype Request =
    | CreateElection(config: Config, desired: string)
    | NextId
    | Advance(id: string, to: State)
    | Enter(id: string, cert: string)
    | Submit(id: string, ballot: Ballot)
    | ReadResults(id: string, who: Option<string>)
    | Check(id: string, hash: string)

  datatype Body =
    | Empty
    | NewId(id: string)
    | Entered(election: Option<Election>, hasBallot: bool, version: int)
    | Receipt(hash: string)
    | Tallied(results: Option<Results>)
    | Counted(row: Option<BallotRow>, name: string)

  datatype Response = Response(status: Result, body: Body)

  predicate Answered(r: Result) { r != StoreFailed && r != StoreRetry }

  /** Every owner row's receipt is still on some ballot row. */
  ghost predicate OwnersBacked(d: Db)
  {
    forall o :: o in d.owners ==> HasHash(d, o.election, o.hash)
  }

  /** Nothing about the request or the tables keeps it from an answer. */
  ghost predicate Servable(d: Db, req: Request)
  {
    match req
    case CreateElection(c, desired) => SafeTexts(desired, c)
    case Submit(_, _) => OwnersBacked(d)
    case _ => true
  }

  lemma IdSafe(n: int)
    ensures !Unsafe(IdOf(n))
  {
    var id := IdOf(n);
    ReadPrinted(if n < 0 then -n else n);
    forall i | 0 <= i < |id|
      ensures id[i] != '\t' && id[i] != '\n' && id[i] != '\r'
    {
    }
  }

  /** What one dispatched request may do to the committed tables, and what its response means. */
  ghost predicate Step(issue: (string, int) -> string, d: Db, d': Db, req: Request, resp: Response, fellBack: bool)
  {
    && (resp.status != Success && resp.status != StoreFailed ==> d' == d)
    && (resp.status == StoreRetry ==> req.Submit?)
    && match req
       case CreateElection(c, desired) =>
         && resp.body.NewId?
         && (resp.status != StoreFailed ==> CreateRuled(d, c, desired, resp.status))
         && (d' == d || Created(d, d', c, desired, fellBack, resp.body.id))
         && (resp.status == Success ==> Created(d, d', c, desired, fellBack, resp.body.id))
       case NextId =>
         && d' == d && resp.status == Success
         && resp.body.NewId? && IdChosen(d, "", fellBack, resp.body.id)
       case Advance(id, to) =>
         && (resp.status != StoreFailed ==> MoveRuled(d, id, to, resp.status))
         && (d' == d || StateMoved(d, d', id, to))
         && (resp.status == Success ==> StateMoved(d, d', id, to))
       case Enter(id, cert) =>
         && d' == d && resp.body.Entered?
         && (resp.status != StoreFailed ==> JoinRuled(d, id, cert, resp.status))
         && (resp.status == Success ==>
               && resp.body.election.Some?
               && JoinedTo(d, id, cert, resp.body.election.value, resp.body.hasBallot, resp.body.version))
       case Submit(id, b) =>
         && resp.body.Receipt?
         && (d' == d || exists h :: Recorded(issue, d, d', id, b, h))
         && (resp.status == Success ==> Recorded(issue, d, d', id, b, resp.body.hash))
         && (!IsStoreResult(resp.status) ==> Refused(d, id, b, resp.status))
       case ReadResults(id, who) =>
         && d' == d && resp.body.Tallied?
         && (resp.status != StoreFailed ==> ResultsRuled(d, id, who, resp.status))
         && (resp.status == Success ==> resp.body.results.Some? && AreResults(d, id, resp.body.results.value))
       case Check(id, hash) =>
         && d' == d && resp.body.Counted?
         && (resp.status != StoreFailed ==> LookedUp(d, id, hash, resp.status, resp.body.row, resp.body.name))
  }

  /** The exchanges listed, in their order, all lie in the stretch and were deadlocks the client heard of. */
  ghost predicate AreDeadlocks(fate: nat -> Fate, from: nat, to: nat, met: seq<nat>)
  {
    && from <= to
    && (forall i :: 0 <= i < |met| ==> from <= met[i] < to && fate(met[i]).IsDeadlock())
    && (forall i, j :: 0 <= i < j < |met| ==> met[i] < met[j])
  }

  lemma MetStays(fate: nat -> Fate, from: nat, mid: nat, to: nat, met: seq<nat>)
    requires AreDeadlocks(fate, from, mid, met) && mid <= to
    ensures AreDeadlocks(fate, from, to, met)
  {
  }

  lemma MetGrows(fate: nat -> Fate, from: nat, mid: nat, to: nat, met: seq<nat>, n: nat)
    requires AreDeadlocks(fate, from, mid, met) && mid <= n < to && fate(n).IsDeadlock()
    ensures AreDeadlocks(fate, from, to, met + [n])
  {
  }

  ghost function Deadlocks(fate: nat -> Fate, from: nat, to: nat): set<nat>
  {
    set n: nat | from <= n < to && fate(n).IsDeadlock()
  }

  /** Fewer deadlocks than attempts, and the retry code cannot come out. */
  lemma {:induction false} DeadlocksBound(fate: nat -> Fate, from: nat, to: nat, met: seq<nat>)
    requires AreDeadlocks(fate, from, to, met)
    ensures |met| <= |Deadlocks(fate, from, to)|
  {
    if met != [] {
      var last := met[|met| - 1];
      var init := met[..|met| - 1];
      assert AreDeadlocks(fate, from, last, init);
      DeadlocksBound(fate, from, last, init);
      var before, all := Deadlocks(fate, from, last), Deadlocks(fate, from, to);
      assert before + {last} <= all && last !in before;
      assert all == before + {last} + (all - before - {last});
    }
  }

  // ---- the daemon's context

  class Context {
    const store: Database
    const net: Network
    const issue: (string, int) -> string
    var txn: Socket?

    constructor (store: Database, net: Network, issue: (string, int) -> string)
      ensures this.store == store && this.net == net && this.issue == issue && txn == null
    {
      this.store := store;
      this.net := net;
      this.issue := issue;
      txn := null;
    }

    ghost function Footprint(): set<object>
      reads this
    {
      if txn == null then {} else {txn, txn.session}
    }

    ghost predicate Valid()
      reads this, Footprint()
    {
      txn != null ==> txn.Valid() && txn.net == net && txn.session.store == store
    }

    // ---- connections and transactions

    method Dial() returns (conn: Socket?)
      modifies net
      ensures conn != null ==>
                && fresh(conn) && fresh(conn.session) && conn.net == net && conn.session.store == store
                && conn.Valid() && conn.failed == Ok && conn.View().None?
      ensures net.Heard(false) && (conn == null ==> net.Broken())
      ensures net.AlwaysDeadlocks() ==> conn != null
    {
      var f := net.Next();
      if !f.delivered {
        return null;
      }
      conn := new Socket(net, store);
    }

    /** bb_db_begin. */
    method BeginTxn() returns (r: Result)
      requires Valid()
      modifies this, net, store
      ensures Valid() && store.tables == old(store.tables) && IsStoreResult(r)
      ensures r != StoreRetry && net.Heard(false)
      ensures r == Success ==>
                && old(txn) == null && txn != null && fresh(txn) && fresh(txn.session)
                && txn.failed == Ok && txn.View() == Some(store.tables)
      ensures r != Success ==> txn == old(txn)
      ensures r != Success && old(txn) == null ==> net.Broken()
      ensures net.AlwaysDeadlocks() && old(txn) == null ==> r == Success
    {
      if txn != null {
        return StoreFailed;
      }
      var conn := Dial();
      if conn == null {
        return StoreFailed;
      }
      var st, reply := conn.Exec(Begin);
      if st != Ok {
        conn.Close();
        return MapStatus(st);
      }
      txn := conn;
      return Success;
    }

    /** bb_db_commit: without success the tables move only if the commit got through and its reply was lost. */
    method CommitTxn() returns (r: Result)
      requires Valid()
      modifies this, net, store, Footprint()
      ensures txn == null && IsStoreResult(r) && net.Heard(r == StoreRetry)
      ensures r == Success ==> old(txn) != null && old(txn.View()) == Some(store.tables)
      ensures store.tables != old(store.tables) ==> old(txn) != null && old(txn.View()) == Some(store.tables)
      ensures store.tables != old(store.tables) && r != Success ==> r == StoreFailed && net.JustLost()
      ensures old(txn) != null && old(txn.View()).Some? && r == StoreFailed ==> net.Broken()
      ensures old(txn) != null ==> old(txn).session.curtrans.None?
    {
      if txn == null {
        return StoreFailed;
      }
      var st, reply := txn.Exec(Commit);
      txn.Close();
      txn := null;
      return MapStatus(st);
    }

    /** bb_db_rollback: the reply does not matter, hanging up also rolls back. */
    method RollbackTxn()
      requires Valid()
      modifies this, net, store, Footprint()
      ensures txn == null && store.tables == old(store.tables) && net.Heard(false)
      ensures old(txn) != null ==> old(txn).session.curtrans.None?
    {
      if txn == null {
        return;
      }
      var st, reply := txn.Exec(Rollback);
      txn.Close();
      txn := null;
    }

    // ---- db_exec

    /** A read on a connection of its own. */
    method OneShotRead(cmd: Command) returns (r: Result, ans: Answer)
      requires !cmd.IsWrite()
      modifies net, store
      ensures IsStoreResult(r) && store.tables == old(store.tables) && net.Heard(r == StoreRetry)
      ensures r == Success ==> Performs(cmd, store.tables, store.tables, ans)
      ensures r == StoreFailed ==> net.Broken()
    {
      ans := Nothing;
      var conn := Dial();
      if conn == null {
        return StoreFailed, Nothing;
      }
      r, ans := RunOp(conn, cmd);
      conn.Close();
    }

    /** A write inside the transaction just opened for it, and its commit or rollback. */
    method StageAndCommit(conn: Socket, cmd: Command) returns (r: Result)
      requires cmd.IsWrite() && conn.Valid() && conn.net == net && conn.session.store == store
      requires conn.View() == Some(store.tables)
      modifies conn, conn.session, net, store
      ensures IsStoreResult(r) && net.Heard(r == StoreRetry) && conn.View().None?
      ensures r == Success ==> Performs(cmd, old(store.tables), store.tables, Nothing)
      ensures store.tables == old(store.tables) || Performs(cmd, old(store.tables), store.tables, Nothing)
      ensures store.tables != old(store.tables) && r != Success ==> r == StoreFailed && net.JustLost()
      ensures r == StoreFailed && Runnable(cmd, old(store.tables)) ==> net.Broken()
    {
      r := RunWrite(conn, cmd);
      var st, reply;
      if r == Success {
        st, reply := conn.Exec(Commit);
        r := MapStatus(st);
      } else if r != StoreRetry {
        st, reply := conn.Exec(Rollback);
      }
    }

    /** A transaction on a fresh connection, for one write. */
    method BeginAndWrite(conn: Socket, cmd: Command) returns (r: Result)
      requires cmd.IsWrite() && conn.Valid() && conn.net == net && conn.session.store == store
      requires conn.failed == Ok && conn.View().None?
      modifies conn, conn.session, net, store
      ensures IsStoreResult(r) && net.Heard(r == StoreRetry) && conn.View().None?
      ensures r == Success ==> Performs(cmd, old(store.tables), store.tables, Nothing)
      ensures store.tables == old(store.tables) || Performs(cmd, old(store.tables), store.tables, Nothing)
      ensures store.tables != old(store.tables) && r != Success ==> r == StoreFailed && net.JustLost()
      ensures r == StoreFailed && Runnable(cmd, old(store.tables)) ==> net.Broken()
    {
      var st, reply := conn.Exec(Begin);
      r := MapStatus(st);
      if r == Success {
        r := StageAndCommit(conn, cmd);
      } else if r != StoreRetry {
        st, reply := conn.Exec(Rollback);
      }
    }

    /** A write in a transaction of its own. */
    method OneShotWrite(cmd: Command) returns (r: Result)
      requires cmd.IsWrite()
      modifies net, store
      ensures IsStoreResult(r)
      ensures r == Success ==> Performs(cmd, old(store.tables), store.tables, Nothing)
      ensures store.tables == old(store.tables) || Performs(cmd, old(store.tables), store.tables, Nothing)
      ensures store.tables != old(store.tables) && r != Success ==> r == StoreFailed && net.JustLost()
      ensures net.Heard(r == StoreRetry)
      ensures r == StoreFailed && Runnable(cmd, old(store.tables)) ==> net.Broken()
    {
      var conn := Dial();
      if conn == null {
        return StoreFailed;
      }
      r := BeginAndWrite(conn, cmd);
      conn.Close();
    }

    /** One self-owned attempt on a connection of its own. */
    method OneShot(cmd: Command) returns (r: Result, ans: Answer)
      modifies net, store
      ensures IsStoreResult(r)
      ensures !cmd.IsWrite() ==>
                && store.tables == old(store.tables)
                && (r == Success ==> Performs(cmd, store.tables, store.tables, ans))
      ensures cmd.IsWrite() ==>
                && (r == Success ==> Performs(cmd, old(store.tables), store.tables, Nothing))
                && (store.tables == old(store.tables) || Performs(cmd, old(store.tables), store.tables, Nothing))
      ensures store.tables != old(store.tables) && r != Success ==> r == StoreFailed && net.JustLost()
      ensures net.Heard(r == StoreRetry)
      ensures r == StoreFailed && Runnable(cmd, old(store.tables)) ==> net.Broken()
    {
      if cmd.IsWrite() {
        ans := Nothing;
        r := OneShotWrite(cmd);
      } else {
        r, ans := OneShotRead(cmd);
      }
    }

    /** db_exec: inside the open transaction, or on its own with three attempts. */
    method DbExec(cmd: Command) returns (r: Result, ans: Answer)
      requires Valid()
      modifies net, store, Footprint()
      ensures Valid() && IsStoreResult(r)
      ensures txn != null ==> net.Heard(r == StoreRetry)
      ensures txn != null && old(txn.View()).Some? ==>
                && store.tables == old(store.tables)
                && (r == Success ==>
                      txn.View().Some? && Performs(cmd, old(txn.View().value), txn.View().value, ans))
      ensures txn != null && net.AlwaysDeadlocks() && old(txn.failed) == Ok && !cmd.IsWrite() ==> r == StoreRetry
      ensures txn == null && !cmd.IsWrite() ==>
                && store.tables == old(store.tables)
                && (r == Success ==> Performs(cmd, store.tables, store.tables, ans))
      ensures txn == null && cmd.IsWrite() ==>
                && (r == Success ==> Performs(cmd, old(store.tables), store.tables, Nothing))
                && (store.tables == old(store.tables) || Performs(cmd, old(store.tables), store.tables, Nothing))
      ensures txn == null ==> r != StoreRetry && net.clock >= old(net.clock)
      ensures txn == null && store.tables != old(store.tables) && r != Success ==> net.JustLost()
      // alone, it fails only if an exchange broke or every attempt was a deadlock victim
      ensures txn == null && r != Success && Runnable(cmd, old(store.tables)) ==> net.Broken() || net.WornOut()
      ensures txn != null && old(txn.View()).Some? && r == StoreFailed && Runnable(cmd, old(txn.View().value)) ==>
                net.Broken()
    {
      if txn != null {
        r, ans := RunOp(txn, cmd);
        return;
      }
      r, ans := StoreFailed, Nothing;
      for attempt := 0 to SELF_RETRY_ATTEMPTS
        invariant store.tables == old(store.tables) && net.clock >= old(net.clock)
        invariant net.retries == old(net.retries) + attempt
        invariant attempt > 0 ==> old(net.clock) <= net.lastRetry < net.clock && net.fate(net.lastRetry).IsDeadlock()
      {
        r, ans := OneShot(cmd);
        if r != StoreRetry {
          return;
        }
      }
      r := StoreFailed;
    }

    /** A read outside any transaction. */
    method ReadAlone(cmd: Command) returns (r: Result, ans: Answer)
      requires txn == null && !cmd.IsWrite()
      modifies net, store
      ensures store.tables == old(store.tables) && net.clock >= old(net.clock)
      ensures r == Success ==> Performs(cmd, store.tables, store.tables, ans)
      ensures r != Success ==> r == StoreFailed && net.Troubled()
    {
      r, ans := DbExec(cmd);
    }

    /** A write outside any transaction. */
    method WriteAlone(cmd: Command) returns (r: Result)
      requires txn == null && cmd.IsWrite()
      modifies net, store
      ensures (r == Success || r == StoreFailed) && net.clock >= old(net.clock)
      ensures r == Success ==> Performs(cmd, old(store.tables), store.tables, Nothing)
      ensures store.tables == old(store.tables) || Performs(cmd, old(store.tables), store.tables, Nothing)
      ensures store.tables != old(store.tables) && r != Success ==> net.JustLost()
      ensures r != Success && Runnable(cmd, old(store.tables)) ==> net.Troubled()
    {
      var ans;
      r, ans := DbExec(cmd);
    }

    /** load_election. */
    method LoadElection(id: string) returns (r: Result, e: Option<Election>)
      requires Valid()
      modifies net, store, Footprint()
      ensures Valid() && (IsStoreResult(r) || r == NotFound)
      ensures txn != null ==> net.Heard(r == StoreRetry)
      ensures r == StoreFailed && txn != null && old(txn.View()).Some? ==> net.Broken()
      ensures r == StoreFailed && txn == null ==> net.Troubled()
      ensures txn != null && old(txn.View()).Some? ==>
                && store.tables == old(store.tables)
                && (r == Success || r == NotFound ==> txn.View() == old(txn.View()))
                && (r == Success ==> e.Some? && IsElection(txn.View().value, id, e.value))
                && (r == NotFound ==> Unused(txn.View().value, id))
      ensures txn != null && net.AlwaysDeadlocks() && old(txn.failed) == Ok ==> r == StoreRetry
      ensures txn == null ==>
                && store.tables == old(store.tables)
                && (r == Success ==> e.Some? && IsElection(store.tables, id, e.value))
                && (r == NotFound ==> Unused(store.tables, id))
                && r != StoreRetry && net.clock >= old(net.clock)
    {
      var ans;
      e := None;
      r, ans := DbExec(GetElection(id));
      if r == Success {
        if !ans.TheElection? {
          r := StoreFailed;
        } else if ans.election.None? {
          r := NotFound;
        } else {
          e := ans.election;
        }
      }
    }

    // ---- recording a ballot

    /** The checks on the loaded election. */
    method CheckElection(e: Election, b: Ballot) returns (r: Result)
      ensures r == Gate(e, false, b)
    {
      if e.state == Closed || e.state == Published {
        return AlreadyClosed;
      }
      if e.state != Open {
        return NotOpen;
      }
      if b.cert !in e.eligible {
        return NotEligible;
      }
      if !(0 <= Choice(b) < e.optionCount) {
        return BadOption;
      }
      return Success;
    }

    /** The nonce check and the voter's prior ballot. */
    method CheckHistory(id: string, b: Ballot) returns (r: Result, prior: Option<OwnerRow>)
      requires Valid() && txn != null && txn.View().Some?
      modifies net, store, Footprint()
      ensures Valid() && store.tables == old(store.tables) && (IsStoreResult(r) || r == Replayed)
      ensures net.Heard(r == StoreRetry) && (r == StoreFailed ==> net.Broken())
      ensures r == Success ==>
                && txn.View() == old(txn.View())
                && NonceRow(id, b.nonce) !in txn.View().value.nonces
                && FindsOwner(txn.View().value, id, b.cert, prior)
      ensures r == Replayed ==> NonceRow(id, b.nonce) in old(txn.View().value.nonces)
    {
      prior := None;
      var ans;
      r, ans := DbExec(NonceSeen(id, b.nonce));
      if r != Success {
        return;
      }
      if !ans.Seen? {
        return StoreFailed, None;
      }
      if ans.seen {
        return Replayed, None;
      }
      r, ans := DbExec(GetPriorBallot(id, b.cert));
      if r != Success {
        return;
      }
      if !ans.ThePrior? {
        return StoreFailed, None;
      }
      prior := ans.prior;
    }

    /** What record_ballot_locked checks before it writes anything. */
    method CheckBallot(id: string, b: Ballot) returns (r: Result, prior: Option<OwnerRow>, ghost e: Option<Election>)
      requires Valid() && txn != null && txn.View().Some?
      modifies net, store, Footprint()
      ensures Valid() && store.tables == old(store.tables) && net.Heard(r == StoreRetry)
      ensures r == StoreFailed ==> net.Broken()
      ensures r == Success ==>
                && txn.View() == old(txn.View())
                && e.Some? && IsElection(txn.View().value, id, e.value)
                && Gate(e.value, NonceRow(id, b.nonce) in txn.View().value.nonces, b) == Success
                && FindsOwner(txn.View().value, id, b.cert, prior)
      ensures r != Success && r != StoreFailed && r != StoreRetry ==> Refused(old(txn.View().value), id, b, r)
      ensures net.AlwaysDeadlocks() && old(txn.failed) == Ok ==> r == StoreRetry
    {
      var election;
      prior, e := None, None;
      r, election := LoadElection(id);
      if r != Success {
        return;
      }
      e := election;
      r := CheckElection(election.value, b);
      if r == Success {
        r, prior := CheckHistory(id, b);
      }
    }

    /** A write command inside the open transaction. */
    method Stage(cmd: Command) returns (r: Result)
      requires Valid() && txn != null && txn.View().Some? && cmd.IsWrite()
      modifies net, store, Footprint()
      ensures Valid() && IsStoreResult(r) && store.tables == old(store.tables) && net.Heard(r == StoreRetry)
      ensures r == Success ==> txn.View().Some? && Performs(cmd, old(txn.View().value), txn.View().value, Nothing)
      ensures r == StoreFailed && Runnable(cmd, old(txn.View().value)) ==> net.Broken()
    {
      var ans;
      r, ans := DbExec(cmd);
    }

    /** Append the new ballot row and mark the one it replaces. */
    method WriteRows(id: string, row: BallotRow, prior: Option<OwnerRow>)
      returns (r: Result, ghost replaced: BallotRow)
      requires Valid() && txn != null && txn.View().Some? && row.election == id
      modifies net, store, Footprint()
      ensures Valid() && IsStoreResult(r) && store.tables == old(store.tables) && net.Heard(r == StoreRetry)
      ensures r == Success && prior.None? ==> txn.View() == Some(WithBallot(old(txn.View().value), row))
      ensures r == Success && prior.Some? ==>
                && replaced in WithBallot(old(txn.View().value), row).ballots
                && HashIs(id, prior.value.hash)(replaced)
                && txn.View() == Some(WithSuperseded(WithBallot(old(txn.View().value), row), replaced))
      ensures r == StoreFailed && Backed(old(txn.View().value), id, prior) ==> net.Broken()
    {
      replaced := row;
      r := Stage(AppendBallot(row));
      if r != Success || prior.None? {
        return;
      }
      ghost var d := txn.View().value;
      r := Stage(MarkSuperseded(id, prior.value.hash));
      if r == Success {
        replaced :| ReplacesRow(d, txn.View().value, id, prior.value.hash, replaced);
      }
    }

    /** The writes of record_ballot_locked. */
    method WriteBallot(id: string, b: Ballot, hash: string, prior: Option<OwnerRow>)
      returns (r: Result, ghost replaced: BallotRow)
      requires Valid() && txn != null && txn.View().Some?
      modifies net, store, Footprint()
      ensures Valid() && IsStoreResult(r) && store.tables == old(store.tables) && net.Heard(r == StoreRetry)
      ensures r == Success && prior.Some? ==>
                && replaced in WithBallot(old(txn.View().value), NewBallotRow(id, b, hash, prior)).ballots
                && HashIs(id, prior.value.hash)(replaced)
      ensures r == Success ==> txn.View() == Some(AfterBallot(old(txn.View().value), id, b, hash, prior, replaced))
      ensures r == StoreFailed && Backed(old(txn.View().value), id, prior) ==> net.Broken()
    {
      r, replaced := WriteRows(id, NewBallotRow(id, b, hash, prior), prior);
      if r == Success {
        r := WriteTail(OwnerRow(id, b.cert, hash, NewVersion(prior)), NonceRow(id, b.nonce));
      }
    }

    /** The owner and nonce rows of a ballot. */
    method WriteTail(owner: OwnerRow, nonce: NonceRow) returns (r: Result)
      requires Valid() && txn != null && txn.View().Some?
      modifies net, store, Footprint()
      ensures Valid() && IsStoreResult(r) && store.tables == old(store.tables) && net.Heard(r == StoreRetry)
      ensures r == Success ==> txn.View() == Some(WithNonce(WithOwner(old(txn.View().value), owner), nonce))
      ensures r == StoreFailed ==> net.Broken()
    {
      r := Stage(SetOwner(owner.election, owner.cert, owner.hash, owner.version));
      if r == Success {
        r := Stage(MarkNonce(nonce.election, nonce.nonce));
      }
    }

    /** record_ballot_locked: read, check and write inside the open transaction. */
    method RecordLocked(id: string, b: Ballot) returns (r: Result, hash: string)
      requires Valid() && txn != null && txn.View().Some?
      modifies net, store, Footprint()
      ensures Valid() && store.tables == old(store.tables) && net.Heard(r == StoreRetry)
      ensures r == Success ==>
                txn.View().Some? && Recorded(issue, old(txn.View().value), txn.View().value, id, b, hash)
      ensures r != Success && r != StoreFailed && r != StoreRetry ==> Refused(old(txn.View().value), id, b, r)
      ensures r == StoreFailed && OwnersBacked(old(txn.View().value)) ==> net.Broken()
      ensures net.AlwaysDeadlocks() && old(txn.failed) == Ok ==> r == StoreRetry
    {
      hash := "";
      ghost var d := txn.View().value;
      ghost var e, replaced;
      var prior;
      r, prior, e := CheckBallot(id, b);
      if r != Success {
        return;
      }
      hash := issue(b.nonce, NewVersion(prior));
      r, replaced := WriteBallot(id, b, hash, prior);
      if r == Success {
        assert RecordedBy(issue, d, txn.View().value, id, b, hash, Reading(e.value, prior, replaced));
      }
    }

    /** One attempt of bb_record_ballot: begin, record, and commit or roll back. */
    method Attempt(id: string, b: Ballot) returns (r: Result, hash: string)
      requires txn == null
      modifies this, net, store
      ensures txn == null && net.Heard(r == StoreRetry)
      ensures store.tables == old(store.tables) || exists h :: Recorded(issue, old(store.tables), store.tables, id, b, h)
      ensures r == Success ==> Recorded(issue, old(store.tables), store.tables, id, b, hash)
      ensures store.tables != old(store.tables) && r != Success ==> r == StoreFailed && net.JustLost()
      ensures r != Success && r != StoreFailed && r != StoreRetry ==> Refused(old(store.tables), id, b, r)
      ensures r == StoreFailed && OwnersBacked(old(store.tables)) ==> net.Broken()
      ensures net.AlwaysDeadlocks() ==> r == StoreRetry
    {
      hash := "";
      r := BeginTxn();
      if r != Success {
        return;
      }
      r, hash := RecordLocked(id, b);
      if r == Success {
        r := CommitTxn();
      } else {
        RollbackTxn();
      }
    }

    /**
     bb_record_ballot. Whatever happens to the statements, the committed tables end up as
     they were or with the whole write set applied once; they are changed without success only
     if the last exchange, the commit, got through and its reply was lost; and no transaction
     stays open. `met` lists the exchanges
     answered with the retry marker.
     */
    method RecordBallot(id: string, b: Ballot)
      returns (r: Result, hash: string, ghost met: seq<nat>)
      requires txn == null
      modifies this, net, store
      ensures txn == null
      ensures store.tables == old(store.tables) || exists h :: Recorded(issue, old(store.tables), store.tables, id, b, h)
      ensures r == Success ==> Recorded(issue, old(store.tables), store.tables, id, b, hash)
      ensures store.tables != old(store.tables) && r != Success ==> r == StoreFailed && net.JustLost()
      ensures r != Success && r != StoreFailed && r != StoreRetry ==> Refused(old(store.tables), id, b, r)
      ensures r == StoreFailed && OwnersBacked(old(store.tables)) ==> net.Broken()
      // types.h says this code never escapes; it does exactly when every attempt loses a deadlock
      ensures AreDeadlocks(net.fate, old(net.clock), net.clock, met)
      ensures net.retries == old(net.retries) + |met|
      ensures r == StoreRetry <==> |met| == 3
      ensures net.AlwaysDeadlocks() ==> r == StoreRetry
    {
      r, hash, met := StoreFailed, "", [];
      for attempt := 0 to TXN_ATTEMPTS
        invariant txn == null
        invariant store.tables == old(store.tables)
        invariant attempt > 0 ==> r == StoreRetry
        invariant AreDeadlocks(net.fate, old(net.clock), net.clock, met)
        invariant |met| == attempt && net.retries == old(net.retries) + attempt
      {
        ghost var now := net.clock;
        r, hash := Attempt(id, b);
        if r != StoreRetry {
          MetStays(net.fate, old(net.clock), now, net.clock, met);
          return;
        }
        MetGrows(net.fate, old(net.clock), now, net.clock, met, net.lastRetry);
        met := met + [net.lastRetry];
      }
    }

    /** CAST and UPDATE. */
    method SubmitBallot(id: string, b: Ballot) returns (r: Result, hash: string)
      requires txn == null
      modifies this, net, store
      ensures txn == null && net.clock >= old(net.clock)
      ensures store.tables == old(store.tables) || exists h :: Recorded(issue, old(store.tables), store.tables, id, b, h)
      ensures r == Success ==> Recorded(issue, old(store.tables), store.tables, id, b, hash)
      ensures store.tables != old(store.tables) && r != Success ==> r == StoreFailed && net.JustLost()
      ensures r != Success && r != StoreFailed && r != StoreRetry ==> Refused(old(store.tables), id, b, r)
      ensures !Answered(r) && OwnersBacked(old(store.tables)) ==> net.Troubled()
    {
      ghost var met;
      r, hash, met := RecordBallot(id, b);
      if r == StoreRetry {
        assert !net.fate(met[0]).IsClean();
      }
    }

    // ---- the other handlers

    /** The read and the check of a transition. */
    method CheckMove(id: string, to: State) returns (r: Result)
      requires txn == null
      modifies net, store
      ensures store.tables == old(store.tables) && net.clock >= old(net.clock)
      ensures r == Success ==> !Unused(store.tables, id) && MayMoveTo(store.tables, id, to)
      ensures r != StoreRetry && (r != StoreFailed ==> MoveRuled(store.tables, id, to, r))
      ensures r == StoreFailed ==> net.Troubled()
    {
      var e;
      r, e := LoadElection(id);
      if r == Success {
        r := MoveGate(e.value, to);
        assert r == Success ==> MayMove(store.tables, id, e.value, to);
      }
    }

    /** The write of a transition. */
    method WriteState(id: string, to: State) returns (r: Result)
      requires txn == null && !Unused(store.tables, id)
      modifies net, store
      ensures net.clock >= old(net.clock)
      ensures store.tables == old(store.tables) || RowMoved(old(store.tables), store.tables, id, to)
      ensures r == Success ==> RowMoved(old(store.tables), store.tables, id, to)
      ensures r != Success ==> r == StoreFailed && net.Troubled()
      ensures store.tables != old(store.tables) && r != Success ==> net.JustLost()
    {
      r := WriteAlone(SetState(id, to));
    }

    /** bb_transition_state: read, check and write in two exchanges of their own. */
    method TransitionState(id: string, to: State) returns (r: Result)
      requires txn == null
      modifies net, store
      ensures store.tables == old(store.tables) || StateMoved(old(store.tables), store.tables, id, to)
      ensures r == Success ==> StateMoved(old(store.tables), store.tables, id, to)
      ensures store.tables != old(store.tables) && r != Success ==> r == StoreFailed && net.JustLost()
      ensures r != StoreRetry && (r != StoreFailed ==> MoveRuled(old(store.tables), id, to, r))
      ensures net.clock >= old(net.clock) && (r == StoreFailed ==> net.Troubled())
    {
      r := CheckMove(id, to);
      if r == Success {
        r := WriteState(id, to);
      }
    }

    /** bb_alloc_id; `fellBack` says the first number was taken because the exchange was not clean. */
    method AllocId() returns (id: string, ghost fellBack: bool)
      modifies net, store
      ensures store.tables == old(store.tables) && net.clock >= old(net.clock)
      ensures fellBack ==> id == IdOf(FIRST_NUMBER) == "E-100" && net.Troubled()
      ensures !Unsafe(id)
      ensures !fellBack ==> Allocates(store.tables, id)
      ensures !fellBack ==> exists max :: IsMaxNumber(store.tables, max) && id == IdOf(NextNumber(max))
    {
      id, fellBack := IdOf(FIRST_NUMBER), true;
      IdSafe(FIRST_NUMBER);
      FirstId();
      var conn := Dial();
      if conn != null {
        var r, reply := Query(conn, SelectMaxNumber);
        if r == Success && reply.MaxNumber? {
          id, fellBack := IdOf(NextNumber(reply.max)), false;
          assert IsMaxNumber(store.tables, reply.max);
          IdSafe(NextNumber(reply.max));
          AllocatedOverRows(store.tables, reply.max);
        }
        conn.Close();
      }
    }

    /** bb_create_election. */
    method CreateElection(c: Config, desired: string) returns (r: Result, id: string, ghost fellBack: bool)
      requires txn == null
      modifies net, store
      ensures store.tables == old(store.tables) || Created(old(store.tables), store.tables, c, desired, fellBack, id)
      ensures r == Success ==> Created(old(store.tables), store.tables, c, desired, fellBack, id)
      ensures store.tables != old(store.tables) && r != Success ==> r == StoreFailed && net.JustLost()
      ensures r != StoreRetry && (r != StoreFailed ==> CreateRuled(old(store.tables), c, desired, r))
      ensures net.clock >= old(net.clock) && (fellBack ==> net.Troubled())
      ensures r == StoreFailed && SafeTexts(desired, c) ==> net.Troubled()
    {
      id, fellBack := "", false;
      r := ValidateConfig(c);
      if r != Success {
        return;
      }
      if desired != "" {
        var existing;
        r, existing := LoadElection(desired);
        if r == Success {
          return IdTaken, "", false;
        }
        if r != NotFound {
          return;
        }
        id := desired;
      } else {
        id, fellBack := AllocId();
      }
      r := WriteAlone(AddElection(id, c));
    }

    /** bb_join. */
    method Join(id: string, cert: string) returns (r: Result, e: Option<Election>, hasBallot: bool, version: int)
      requires txn == null
      modifies net, store
      ensures store.tables == old(store.tables)
      ensures r == Success ==> e.Some? && JoinedTo(store.tables, id, cert, e.value, hasBallot, version)
      ensures r != Success ==> !hasBallot && version == 0
      ensures r != StoreRetry && (r != StoreFailed ==> JoinRuled(store.tables, id, cert, r))
      ensures net.clock >= old(net.clock) && (r == StoreFailed ==> net.Troubled())
    {
      hasBallot, version := false, 0;
      r, e := LoadElection(id);
      if r != Success {
        return;
      }
      if cert == "" {
        return CertInvalid, None, false, 0;
      }
      if cert !in e.value.eligible {
        return NotEligible, None, false, 0;
      }
      if e.value.state != Open {
        return NotOpen, None, false, 0;
      }
      var ans;
      r, ans := ReadAlone(GetPriorBallot(id, cert));
      if r == Success && !ans.ThePrior? {
        r := StoreFailed;
      }
      if r == Success {
        hasBallot := ans.prior.Some?;
        version := if ans.prior.Some? then ans.prior.value.version else 0;
      }
    }

    /** bb_get_results for a voter, bb_get_results_admin when `who` is None. */
    method GetResults(id: string, who: Option<string>) returns (r: Result, res: Option<Results>)
      requires txn == null
      modifies net, store
      ensures store.tables == old(store.tables)
      ensures r == Success ==> res.Some? && AreResults(store.tables, id, res.value)
      ensures r != StoreRetry && (r != StoreFailed ==> ResultsRuled(store.tables, id, who, r))
      ensures net.clock >= old(net.clock) && (r == StoreFailed ==> net.Troubled())
      ensures r != Success ==> res.None?
    {
      var e;
      res := None;
      r, e := LoadElection(id);
      if r != Success {
        return;
      }
      if e.value.state != Published {
        return NotPublished, None;
      }
      if who.Some? && who.value !in e.value.eligible {
        return NotEligible, None;
      }
      var fetched;
      r, fetched := FetchResults(id, e.value);
      if r == Success {
        res := Some(fetched);
      }
    }

    /** fetch_results: the tally and the published rows. */
    method FetchResults(id: string, e: Election) returns (r: Result, res: Results)
      requires txn == null && IsElection(store.tables, id, e) && e.state == Published
      modifies net, store
      ensures store.tables == old(store.tables) && (r == Success || r == StoreFailed)
      ensures r == Success ==> AreResults(store.tables, id, res)
      ensures net.clock >= old(net.clock) && (r == StoreFailed ==> net.Troubled())
    {
      var n := e.optionCount;
      res := Results(e.title, 0, [], [], []);
      var ans;
      r, ans := ReadAlone(GetTally(id));
      if r != Success {
        return;
      }
      if !ans.TheTally? {
        return StoreFailed, res;
      }
      var tally := ans.tally;
      r, ans := ReadAlone(GetHashes(id));
      if r != Success {
        return;
      }
      if !ans.TheHashes? {
        return StoreFailed, res;
      }
      res := Results(e.title, n, tally[..n], e.options[..n], ans.rows);
    }

    /** bb_lookup_hash. */
    method LookupHash(id: string, hash: string) returns (r: Result, row: Option<BallotRow>, name: string)
      requires txn == null
      modifies net, store
      ensures store.tables == old(store.tables)
      ensures r != StoreRetry && (r != StoreFailed ==> LookedUp(store.tables, id, hash, r, row, name))
      ensures net.clock >= old(net.clock) && (r == StoreFailed ==> net.Troubled())
    {
      var e, ans;
      row, name := None, "";
      r, e := LoadElection(id);
      if r != Success {
        return;
      }
      r, ans := ReadAlone(FindHash(id, hash));
      if r == Success && !ans.TheRow? {
        r := StoreFailed;
      }
      if r != Success {
        return;
      }
      if ans.row.None? {
        return NotFound, None, "";
      }
      row := ans.row;
      var i := row.value.option;
      name := if 0 <= i < e.value.optionCount then e.value.options[i] else "";
    }

    /** ballotd_dispatch: one request, one handler, one response. */
    method Dispatch(req: Request) returns (resp: Response, ghost fellBack: bool)
      requires txn == null
      modifies this, net, store
      ensures txn == null
      ensures Step(issue, old(store.tables), store.tables, req, resp, fellBack)
      ensures store.tables != old(store.tables) && resp.status != Success ==> net.JustLost()
      // a request that can be served is answered, and from the store, unless an exchange was not clean
      ensures net.clock >= old(net.clock) && (fellBack ==> net.Troubled())
      ensures !Answered(resp.status) && Servable(old(store.tables), req) ==> net.Troubled()
    {
      fellBack := false;
      var r: Result;
      match req {
        case CreateElection(c, desired) =>
          var id;
          r, id, fellBack := CreateElection(c, desired);
          resp := Response(r, NewId(id));
        case NextId =>
          var id;
          id, fellBack := AllocId();
          resp := Response(Success, NewId(id));
        case Advance(id, to) =>
          r := TransitionState(id, to);
          resp := Response(r, Empty);
        case Enter(id, cert) =>
          var e, has, version;
          r, e, has, version := Join(id, cert);
          resp := Response(r, Entered(e, has, version));
        case Submit(id, b) =>
          var hash;
          r, hash := SubmitBallot(id, b);
          resp := Response(r, Receipt(hash));
        case ReadResults(id, who) =>
          var res;
          r, res := GetResults(id, who);
          resp := Response(r, Tallied(res));
        case Check(id, hash) =>
          var row, name;
          r, row, name := LookupHash(id, hash);
          resp := Response(r, Counted(row, name));
      }
    }
  }
}
