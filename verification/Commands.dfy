/**
 The database seam of libballotbrain (db.h, db.c): typed commands, what each one does to
 the tables, and the statement sequences that do it over one connection.
 */
module Commands {
  import opened Options
  import opened Tables
  import opened Session
  import opened Connection
  import opened ElectionId

  const MAX_OPTIONS := 16
  const MAX_VOTERS := 64

  /** bb_result_t. */
  datatype Result =
    | Success
    | BadTitle | BadOptions | BadTime | IdTaken
    | IllegalTransition | NotOpen | AlreadyClosed | NotPublished
    | NotEligible | CertInvalid | CertExpired
    | BadOption | Replayed | Undecryptable
    | NotFound | NotJoined | StoreFailed | NotImplemented | StoreRetry

  function MapStatus(st: Status): Result
  {
    match st
    case Ok => Success
    case Retry => StoreRetry
    case _ => StoreFailed
  }

  datatype Config = Config(title: string, options: seq<string>, eligible: seq<string>,
                           openTime: string, closeTime: string)

  /** An election as the daemon loads it; `options` is the fixed array of names. */
  datatype Election = Election(id: string, title: string, state: State,
                               openTime: string, closeTime: string,
                               options: seq<string>, optionCount: nat, eligible: seq<string>)

  datatype Command =
    | AddElection(id: string, config: Config)
    | SetState(id: string, state: State)
    | AppendBallot(row: BallotRow)
    | MarkSuperseded(id: string, hash: string)
    | MarkNonce(id: string, nonce: string)
    | SetOwner(id: string, cert: string, hash: string, version: int)
    | GetElection(id: string)
    | GetTally(id: string)
    | GetHashes(id: string)
    | FindHash(id: string, hash: string)
    | NonceSeen(id: string, nonce: string)
    | GetPriorBallot(id: string, cert: string)
  {
    predicate IsWrite() {
      AddElection? || SetState? || AppendBallot? || MarkSuperseded? || MarkNonce? || SetOwner?
    }
  }

  datatype Answer =
    | Nothing
    | TheElection(election: Option<Election>)
    | TheTally(tally: seq<nat>)
    | TheHashes(rows: seq<BallotRow>)
    | TheRow(row: Option<BallotRow>)
    | Seen(seen: bool)
    | ThePrior(prior: Option<OwnerRow>)

  // ---- what a command means

  function Min(a: nat, b: nat): nat { if a < b then a else b }

  function LiveFor(id: string, option: int): BallotRow -> bool
  {
    (r: BallotRow) => r.election == id && !r.superseded && r.option == option
  }

  /** `e` is an election row of `d` together with its option and eligible rows. */
  ghost predicate IsElection(d: Db, id: string, e: Election)
  {
    && e.id == id
    && (exists r :: r in d.elections && r.id == id && r.title == e.title && r.state == e.state
                    && r.openTime == e.openTime && r.closeTime == e.closeTime)
    && AreOptions(d, id, e.options, e.optionCount)
    && AreEligible(d, id, e.eligible)
  }

  ghost predicate AreOptions(d: Db, id: string, names: seq<string>, count: nat)
  {
    && count == Min(|Filter(d.options, OptionOf(id))|, MAX_OPTIONS)
    && |names| == MAX_OPTIONS
    && (forall i :: 0 <= i < MAX_OPTIONS ==> HoldsOption(d, id, i, names[i]))
  }

  /** Every listed name is eligible, and the list is complete unless it hit the array bound. */
  ghost predicate AreEligible(d: Db, id: string, certs: seq<string>)
  {
    && |certs| == Min(|Filter(d.eligible, EligibleFor(id))|, MAX_VOTERS)
    && (forall c :: c in certs ==> EligibleRow(id, c) in d.eligible)
    && (|Filter(d.eligible, EligibleFor(id))| <= MAX_VOTERS ==>
          forall c :: EligibleRow(id, c) in d.eligible ==> c in certs)
  }

  /** Slot `i` of the option array holds the name of a row with that index, if there is one. */
  ghost predicate HoldsOption(d: Db, id: string, i: int, name: string)
  {
    || OptionRow(id, i, name) in d.options
    || (name == "" && forall r :: r in d.options && r.election == id ==> r.index != i)
  }

  function NewRow(id: string, c: Config): ElectionRow
  {
    ElectionRow(IdNumber(id), id, c.title, Draft, c.openTime, c.closeTime)
  }

  function OptionRowsOf(id: string, names: seq<string>): seq<OptionRow>
  {
    seq(|names|, i requires 0 <= i < |names| => OptionRow(id, i, names[i]))
  }

  function EligibleRowsOf(id: string, certs: seq<string>): seq<EligibleRow>
  {
    seq(|certs|, i requires 0 <= i < |certs| => EligibleRow(id, certs[i]))
  }

  /** The first `n` of a list. */
  function Cut<T>(s: seq<T>, n: nat): (r: seq<T>)
    ensures r <= s && |r| == Min(|s|, n)
  {
    if |s| <= n then s else s[..n]
  }

  ghost function WithElection(d: Db, id: string, c: Config): Db
  {
    d.(elections := d.elections + multiset{NewRow(id, c)},
       options := d.options + multiset(OptionRowsOf(id, Cut(c.options, MAX_OPTIONS))),
       eligible := d.eligible + multiset(EligibleRowsOf(id, Cut(c.eligible, MAX_VOTERS))))
  }

  ghost function WithState(d: Db, row: ElectionRow, state: State): Db
  {
    d.(elections := d.elections - Filter(d.elections, IdIs(row.id)) + multiset{row.(state := state)})
  }

  ghost function WithSuperseded(d: Db, row: BallotRow): Db
  {
    d.(ballots := d.ballots - Filter(d.ballots, HashIs(row.election, row.hash))
                  + multiset{row.(superseded := true)})
  }

  ghost function WithOwner(d: Db, o: OwnerRow): Db
  {
    d.(owners := d.owners - Filter(d.owners, OwnedBy(o.election, o.cert)) + multiset{o})
  }

  ghost predicate MovesRow(d: Db, d': Db, id: string, row: ElectionRow, to: State)
  {
    row in d.elections && row.id == id && d' == WithState(d, row, to)
  }

  ghost predicate ReplacesRow(d: Db, d': Db, id: string, hash: string, row: BallotRow)
  {
    row in d.ballots && row.election == id && row.hash == hash && d' == WithSuperseded(d, row)
  }

  /** `cmd` run on `d` answers `ans` and leaves `d'`. */
  ghost predicate Performs(cmd: Command, d: Db, d': Db, ans: Answer)
  {
    match cmd
    case AddElection(id, c) => d' == WithElection(d, id, c)
    case SetState(id, state) => exists row :: MovesRow(d, d', id, row, state)
    case AppendBallot(row) => d' == d.(ballots := d.ballots + multiset{row})
    case MarkSuperseded(id, hash) => exists row :: ReplacesRow(d, d', id, hash, row)
    case MarkNonce(id, nonce) => d' == d.(nonces := d.nonces + multiset{NonceRow(id, nonce)})
    case SetOwner(id, cert, hash, version) => d' == WithOwner(d, OwnerRow(id, cert, hash, version))
    case GetElection(id) =>
      && d' == d && ans.TheElection?
      && (ans.election.None? ==> forall r :: r in d.elections ==> r.id != id)
      && (ans.election.Some? ==> IsElection(d, id, ans.election.value))
    case GetTally(id) =>
      && d' == d && ans.TheTally? && |ans.tally| == MAX_OPTIONS
      && (forall i :: 0 <= i < MAX_OPTIONS ==> ans.tally[i] == |Filter(d.ballots, LiveFor(id, i))|)
    case GetHashes(id) => d' == d && ans.TheHashes? && AreHashes(d, id, ans.rows)
    case FindHash(id, hash) => d' == d && ans.TheRow? && FindsLive(d, id, hash, ans.row)
    case NonceSeen(id, nonce) =>
      d' == d && ans.Seen? && (ans.seen <==> NonceRow(id, nonce) in d.nonces)
    case GetPriorBallot(id, cert) => d' == d && ans.ThePrior? && FindsOwner(d, id, cert, ans.prior)
  }

  /** The live rows of an election, cut at the array bound. */
  ghost predicate AreHashes(d: Db, id: string, rows: seq<BallotRow>)
  {
    && |rows| == Min(|Filter(d.ballots, LiveIn(id))|, MAX_VOTERS)
    && multiset(rows) <= Filter(d.ballots, LiveIn(id))
    && (|Filter(d.ballots, LiveIn(id))| <= MAX_VOTERS ==> multiset(rows) == Filter(d.ballots, LiveIn(id)))
  }

  ghost predicate FindsLive(d: Db, id: string, hash: string, row: Option<BallotRow>)
  {
    match row
    case None => forall r :: r in d.ballots ==> !LiveHash(id, hash)(r)
    case Some(r) => r in d.ballots && LiveHash(id, hash)(r)
  }

  ghost predicate FindsOwner(d: Db, id: string, cert: string, prior: Option<OwnerRow>)
  {
    match prior
    case None => forall o :: o in d.owners ==> !OwnedBy(id, cert)(o)
    case Some(o) => o in d.owners && OwnedBy(id, cert)(o)
  }

  // ---- the statement sequences

  /** A value with TAB, CR or LF would shift every field printed after it. */
  predicate Unsafe(s: string)
  {
    exists i :: 0 <= i < |s| && (s[i] == '\t' || s[i] == '\n' || s[i] == '\r')
  }

  /** The texts of a new election can all be stored. */
  predicate SafeTexts(id: string, c: Config)
  {
    && !Unsafe(id) && !Unsafe(c.title) && !Unsafe(c.openTime) && !Unsafe(c.closeTime)
    && (forall i :: 0 <= i < |Cut(c.options, MAX_OPTIONS)| ==> !Unsafe(Cut(c.options, MAX_OPTIONS)[i]))
    && (forall i :: 0 <= i < |Cut(c.eligible, MAX_VOTERS)| ==> !Unsafe(Cut(c.eligible, MAX_VOTERS)[i]))
  }

  ghost predicate HasHash(d: Db, id: string, hash: string)
  {
    exists r :: r in d.ballots && HashIs(id, hash)(r)
  }

  /** Nothing about the command or the tables stands in its way. */
  ghost predicate Runnable(cmd: Command, d: Db)
  {
    match cmd
    case AddElection(id, c) => SafeTexts(id, c)
    case SetState(id, _) => !Unused(d, id)
    case MarkSuperseded(id, hash) => HasHash(d, id, hash)
    case _ => true
  }

  /**
   What running a command over a connection promises: Success means the whole command took
   effect on the tables the connection acts on, inside a transaction or outside one; inside
   one the committed tables stay, and a read never moves them.
   */
  twostate predicate Ran(conn: Socket, cmd: Command, r: Result, ans: Answer)
    reads conn, conn.session, conn.session.store, conn.net
  {
    && conn.Valid() && IsStoreResult(r) && conn.net.Heard(r == StoreRetry)
    && (r == Success ==>
          conn.View().Some? == old(conn.View()).Some? && Performs(cmd, old(conn.Sees()), conn.Sees(), ans))
    && (old(conn.View()).Some? || !cmd.IsWrite() ==>
          conn.session.store.tables == old(conn.session.store.tables))
    && (old(conn.failed) == Ok && r == StoreFailed && Runnable(cmd, old(conn.Sees())) ==> conn.net.Broken())
    && (conn.net.AlwaysDeadlocks() && old(conn.failed) == Ok && !cmd.IsWrite() ==> r == StoreRetry)
  }

  /** A reply's rows are rows of the table that match; an empty reply means none do. */
  lemma RowsMatch<T(!new)>(m: multiset<T>, p: T -> bool, rows: seq<T>)
    requires multiset(rows) == Filter(m, p)
    ensures forall i :: 0 <= i < |rows| ==> rows[i] in m && p(rows[i])
    ensures forall x :: x in m && p(x) ==> x in rows
    ensures |rows| == |Filter(m, p)|
  {
    forall i | 0 <= i < |rows|
      ensures rows[i] in m && p(rows[i])
    {
      assert rows[i] in multiset(rows);
    }
    forall x | x in m && p(x)
      ensures x in rows
    {
      assert x in multiset(rows);
    }
  }

  lemma Appended<T>(m: multiset<T>, rows: seq<T>, i: nat)
    requires i < |rows|
    ensures m + multiset(rows[..i]) + multiset{rows[i]} == m + multiset(rows[..i + 1])
    ensures m + multiset(rows[..0]) == m
    ensures rows[..|rows|] == rows
  {
    assert rows[..i + 1] == rows[..i] + [rows[i]];
  }

  lemma StateReplaced(d: Db, row: ElectionRow, state: State)
    ensures Effect(InsertElection(row.(state := state)), Effect(DeleteElection(row.id), d)) == WithState(d, row, state)
  {
  }

  lemma BallotReplaced(d: Db, row: BallotRow)
    ensures Effect(InsertBallot(row.(superseded := true)), Effect(DeleteBallot(row.election, row.hash), d))
            == WithSuperseded(d, row)
  {
  }

  lemma OwnerReplaced(d: Db, o: OwnerRow)
    ensures Effect(InsertOwner(o), Effect(DeleteOwner(o.election, o.cert), d)) == WithOwner(d, o)
  {
  }

  predicate IsStoreResult(r: Result) { r == Success || r == StoreFailed || r == StoreRetry }

  /** A read over a connection: nothing moves, and Success leaves the transaction open. */
  twostate predicate OnlyRead(conn: Socket, r: Result)
    reads conn, conn.session, conn.session.store, conn.net
  {
    && conn.Valid() && IsStoreResult(r) && conn.net.Heard(r == StoreRetry)
    && conn.session.store.tables == old(conn.session.store.tables)
    && (r == Success ==> conn.failed == Ok && conn.View() == old(conn.View()))
    && (r == StoreRetry ==> conn.View().None?)
    && (old(conn.failed) == Ok && r == StoreFailed ==> conn.net.Broken())
    && (conn.net.AlwaysDeadlocks() && old(conn.failed) == Ok ==> r == StoreRetry)
  }

  /** A write inside a transaction leaves the committed tables alone, and Success leaves it open. */
  twostate predicate OnlyStaged(conn: Socket, r: Result)
    reads conn, conn.session, conn.session.store, conn.net
  {
    && conn.Valid() && IsStoreResult(r) && conn.net.Heard(r == StoreRetry)
    && (old(conn.View()).Some? ==> conn.session.store.tables == old(conn.session.store.tables))
    && (r == Success ==> conn.View().Some? == old(conn.View()).Some?)
    && (r == Success && old(conn.failed) == Ok ==> conn.failed == Ok)
    && (r == StoreRetry ==> conn.View().None?)
  }

  /** A write that failed although nothing stood in its way met a broken exchange. */
  twostate predicate Excused(conn: Socket, r: Result, runnable: bool)
    reads conn, conn.net
  {
    old(conn.failed) == Ok && r == StoreFailed && runnable ==> conn.net.Broken()
  }

  /** exec_stmt for a select. */
  method Query(conn: Socket, s: Statement) returns (r: Result, reply: Reply)
    requires conn.Valid() && s.IsSelect()
    modifies conn, conn.net, conn.session, conn.session.store
    ensures OnlyRead(conn, r)
    ensures r == Success ==> Answers(s, conn.Sees(), reply)
  {
    var st;
    st, reply := conn.Exec(s);
    r := MapStatus(st);
  }

  /** exec_stmt for an insert or a delete. */
  method Update(conn: Socket, s: Statement) returns (r: Result)
    requires conn.Valid() && s.IsWrite()
    modifies conn, conn.net, conn.session, conn.session.store
    ensures OnlyStaged(conn, r)
    ensures r == Success ==> conn.Sees() == Effect(s, old(conn.Sees()))
    ensures Excused(conn, r, true)
  {
    var st, reply := conn.Exec(s);
    r := MapStatus(st);
  }

  /** A delete and the insert that puts a row back. */
  method Replace(conn: Socket, gone: Statement, put: Statement) returns (r: Result)
    requires conn.Valid() && gone.IsWrite() && put.IsWrite()
    modifies conn, conn.net, conn.session, conn.session.store
    ensures OnlyStaged(conn, r)
    ensures r == Success ==> conn.Sees() == Effect(put, Effect(gone, old(conn.Sees())))
    ensures Excused(conn, r, true)
  {
    r := Update(conn, gone);
    if r == Success {
      r := Update(conn, put);
    }
  }

  method RunAddElection(conn: Socket, id: string, c: Config) returns (r: Result)
    requires conn.Valid()
    modifies conn, conn.net, conn.session, conn.session.store
    ensures OnlyStaged(conn, r)
    ensures r == Success ==> conn.Sees() == WithElection(old(conn.Sees()), id, c)
    ensures Excused(conn, r, SafeTexts(id, c))
  {
    if Unsafe(id) || Unsafe(c.title) || Unsafe(c.openTime) || Unsafe(c.closeTime) {
      return StoreFailed;
    }
    if SafeTexts(id, c) {
      SafeRows(id, c);
    }
    r := Update(conn, InsertElection(NewRow(id, c)));
    if r == Success {
      r := InsertLists(conn, OptionRowsOf(id, Cut(c.options, MAX_OPTIONS)),
                       EligibleRowsOf(id, Cut(c.eligible, MAX_VOTERS)));
    }
  }

  lemma SafeRows(id: string, c: Config)
    requires SafeTexts(id, c)
    ensures var rows := OptionRowsOf(id, Cut(c.options, MAX_OPTIONS));
            forall i :: 0 <= i < |rows| ==> !Unsafe(rows[i].name)
    ensures var rows := EligibleRowsOf(id, Cut(c.eligible, MAX_VOTERS));
            forall i :: 0 <= i < |rows| ==> !Unsafe(rows[i].cert)
  {
  }

  method InsertLists(conn: Socket, options: seq<OptionRow>, eligible: seq<EligibleRow>) returns (r: Result)
    requires conn.Valid()
    modifies conn, conn.net, conn.session, conn.session.store
    ensures OnlyStaged(conn, r)
    ensures r == Success ==>
              conn.Sees() == old(conn.Sees()).(options := old(conn.Sees()).options + multiset(options),
                                               eligible := old(conn.Sees()).eligible + multiset(eligible))
    ensures Excused(conn, r, && (forall i :: 0 <= i < |options| ==> !Unsafe(options[i].name))
                             && (forall i :: 0 <= i < |eligible| ==> !Unsafe(eligible[i].cert)))
  {
    r := InsertOptions(conn, options);
    if r == Success {
      r := InsertEligibles(conn, eligible);
    }
  }

  method AddOption(conn: Socket, row: OptionRow) returns (r: Result)
    requires conn.Valid()
    modifies conn, conn.net, conn.session, conn.session.store
    ensures OnlyStaged(conn, r)
    ensures r == Success ==>
              conn.Sees() == old(conn.Sees()).(options := old(conn.Sees()).options + multiset{row})
    ensures Excused(conn, r, !Unsafe(row.name))
  {
    if Unsafe(row.name) {
      return StoreFailed;
    }
    r := Update(conn, InsertOption(row));
  }

  method InsertOptions(conn: Socket, rows: seq<OptionRow>) returns (r: Result)
    requires conn.Valid()
    modifies conn, conn.net, conn.session, conn.session.store
    ensures OnlyStaged(conn, r)
    ensures r == Success ==>
              conn.Sees() == old(conn.Sees()).(options := old(conn.Sees()).options + multiset(rows))
    ensures Excused(conn, r, forall i :: 0 <= i < |rows| ==> !Unsafe(rows[i].name))
  {
    r := Success;
    ghost var d := conn.Sees();
    assert d.options + multiset(rows[..0]) == d.options;
    for i := 0 to |rows|
      invariant r == Success && OnlyStaged(conn, r)
      invariant conn.Sees() == d.(options := d.options + multiset(rows[..i]))
    {
      Appended(d.options, rows, i);
      r := AddOption(conn, rows[i]);
      if r != Success {
        return;
      }
    }
    assert rows[..|rows|] == rows;
  }

  method AddEligible(conn: Socket, row: EligibleRow) returns (r: Result)
    requires conn.Valid()
    modifies conn, conn.net, conn.session, conn.session.store
    ensures OnlyStaged(conn, r)
    ensures r == Success ==>
              conn.Sees() == old(conn.Sees()).(eligible := old(conn.Sees()).eligible + multiset{row})
    ensures Excused(conn, r, !Unsafe(row.cert))
  {
    if Unsafe(row.cert) {
      return StoreFailed;
    }
    r := Update(conn, InsertEligible(row));
  }

  method InsertEligibles(conn: Socket, rows: seq<EligibleRow>) returns (r: Result)
    requires conn.Valid()
    modifies conn, conn.net, conn.session, conn.session.store
    ensures OnlyStaged(conn, r)
    ensures r == Success ==>
              conn.Sees() == old(conn.Sees()).(eligible := old(conn.Sees()).eligible + multiset(rows))
    ensures Excused(conn, r, forall i :: 0 <= i < |rows| ==> !Unsafe(rows[i].cert))
  {
    r := Success;
    ghost var d := conn.Sees();
    assert d.eligible + multiset(rows[..0]) == d.eligible;
    for i := 0 to |rows|
      invariant r == Success && OnlyStaged(conn, r)
      invariant conn.Sees() == d.(eligible := d.eligible + multiset(rows[..i]))
    {
      Appended(d.eligible, rows, i);
      r := AddEligible(conn, rows[i]);
      if r != Success {
        return;
      }
    }
    assert rows[..|rows|] == rows;
  }

  /** The election row a select on its id answers first, if any. */
  method FirstElection(conn: Socket, id: string) returns (r: Result, row: Option<ElectionRow>)
    requires conn.Valid()
    modifies conn, conn.net, conn.session, conn.session.store
    ensures OnlyRead(conn, r)
    ensures r == Success && row.None? ==> forall x :: x in conn.Sees().elections ==> x.id != id
    ensures r == Success && row.Some? ==> row.value in conn.Sees().elections && row.value.id == id
  {
    var reply;
    row := None;
    r, reply := Query(conn, SelectElection(id));
    if r == Success && !reply.ElectionRows? {
      r := StoreFailed;
    }
    if r == Success {
      RowsMatch(conn.Sees().elections, IdIs(id), reply.elections);
      if reply.elections != [] {
        row := Some(reply.elections[0]);
      }
    }
  }

  method RunSetState(conn: Socket, id: string, state: State) returns (r: Result)
    requires conn.Valid()
    modifies conn, conn.net, conn.session, conn.session.store
    ensures OnlyStaged(conn, r)
    ensures r == Success ==> Performs(SetState(id, state), old(conn.Sees()), conn.Sees(), Nothing)
    ensures Excused(conn, r, old(!Unused(conn.Sees(), id)))
  {
    var row;
    r, row := FirstElection(conn, id);
    if r != Success {
      return;
    }
    if row.None? {
      return StoreFailed;
    }
    StateReplaced(conn.Sees(), row.value, state);
    r := Replace(conn, DeleteElection(id), InsertElection(row.value.(state := state)));
    assert r == Success ==> MovesRow(old(conn.Sees()), conn.Sees(), id, row.value, state);
  }

  method RunAppendBallot(conn: Socket, row: BallotRow) returns (r: Result)
    requires conn.Valid()
    modifies conn, conn.net, conn.session, conn.session.store
    ensures OnlyStaged(conn, r)
    ensures r == Success ==> conn.Sees() == Effect(InsertBallot(row), old(conn.Sees()))
    ensures Excused(conn, r, true)
  {
    r := Update(conn, InsertBallot(row));
  }

  /** The ballot row a select on its hash answers first, if any. */
  method FirstBallot(conn: Socket, id: string, hash: string) returns (r: Result, row: Option<BallotRow>)
    requires conn.Valid()
    modifies conn, conn.net, conn.session, conn.session.store
    ensures OnlyRead(conn, r)
    ensures r == Success && row.Some? ==> row.value in conn.Sees().ballots && HashIs(id, hash)(row.value)
    ensures r == Success && row.None? ==> !HasHash(conn.Sees(), id, hash)
  {
    var reply;
    row := None;
    r, reply := Query(conn, SelectBallot(id, hash));
    if r == Success && !reply.BallotRows? {
      r := StoreFailed;
    }
    if r == Success {
      RowsMatch(conn.Sees().ballots, HashIs(id, hash), reply.ballots);
      if reply.ballots != [] {
        row := Some(reply.ballots[0]);
      }
    }
  }

  method RunMarkSuperseded(conn: Socket, id: string, hash: string) returns (r: Result)
    requires conn.Valid()
    modifies conn, conn.net, conn.session, conn.session.store
    ensures OnlyStaged(conn, r)
    ensures r == Success ==> Performs(MarkSuperseded(id, hash), old(conn.Sees()), conn.Sees(), Nothing)
    ensures Excused(conn, r, old(HasHash(conn.Sees(), id, hash)))
  {
    var row;
    r, row := FirstBallot(conn, id, hash);
    if r != Success {
      return;
    }
    if row.None? {
      return StoreFailed;
    }
    BallotReplaced(conn.Sees(), row.value);
    r := Replace(conn, DeleteBallot(id, hash), InsertBallot(row.value.(superseded := true)));
    assert r == Success ==> ReplacesRow(old(conn.Sees()), conn.Sees(), id, hash, row.value);
  }

  method RunMarkNonce(conn: Socket, id: string, nonce: string) returns (r: Result)
    requires conn.Valid()
    modifies conn, conn.net, conn.session, conn.session.store
    ensures OnlyStaged(conn, r)
    ensures r == Success ==> conn.Sees() == Effect(InsertNonce(NonceRow(id, nonce)), old(conn.Sees()))
    ensures Excused(conn, r, true)
  {
    r := Update(conn, InsertNonce(NonceRow(id, nonce)));
  }

  method RunSetOwner(conn: Socket, o: OwnerRow) returns (r: Result)
    requires conn.Valid()
    modifies conn, conn.net, conn.session, conn.session.store
    ensures OnlyStaged(conn, r)
    ensures r == Success ==> conn.Sees() == WithOwner(old(conn.Sees()), o)
    ensures Excused(conn, r, true)
  {
    OwnerReplaced(conn.Sees(), o);
    r := Replace(conn, DeleteOwner(o.election, o.cert), InsertOwner(o));
  }

  /** The option array filled from the option rows, in whatever order they came. */
  method FillOptions(ghost d: Db, id: string, rows: seq<OptionRow>) returns (names: seq<string>)
    requires multiset(rows) == Filter(d.options, OptionOf(id))
    ensures |names| == MAX_OPTIONS
    ensures forall i :: 0 <= i < MAX_OPTIONS ==> HoldsOption(d, id, i, names[i])
  {
    names := seq(MAX_OPTIONS, _ => "");
    for k := 0 to |rows|
      invariant |names| == MAX_OPTIONS
      invariant forall i :: 0 <= i < MAX_OPTIONS ==>
                  || OptionRow(id, i, names[i]) in d.options
                  || (names[i] == "" && forall j :: 0 <= j < k ==> rows[j].index != i)
    {
      assert rows[k] in multiset(rows);
      if 0 <= rows[k].index < MAX_OPTIONS {
        names := names[rows[k].index := rows[k].name];
      }
    }
    forall i | 0 <= i < MAX_OPTIONS
      ensures HoldsOption(d, id, i, names[i])
    {
      forall r | r in d.options && r.election == id && OptionRow(id, i, names[i]) !in d.options
        ensures r.index != i
      {
        assert r in multiset(rows);
        var j :| 0 <= j < |rows| && rows[j] == r;
      }
    }
  }

  function CertsOf(rows: seq<EligibleRow>): (certs: seq<string>)
    ensures |certs| == |rows|
    ensures forall i :: 0 <= i < |rows| ==> certs[i] == rows[i].cert
  {
    seq(|rows|, i requires 0 <= i < |rows| => rows[i].cert)
  }

  method ReadOptions(conn: Socket, id: string) returns (r: Result, names: seq<string>, count: nat)
    requires conn.Valid()
    modifies conn, conn.net, conn.session, conn.session.store
    ensures OnlyRead(conn, r)
    ensures r == Success ==> AreOptions(conn.Sees(), id, names, count)
  {
    var reply;
    names, count := [], 0;
    r, reply := Query(conn, SelectOptions(id));
    if r == Success && !reply.OptionRows? {
      r := StoreFailed;
    }
    if r == Success {
      names := FillOptions(conn.Sees(), id, reply.options);
      count := Min(|reply.options|, MAX_OPTIONS);
      RowsMatch(conn.Sees().options, OptionOf(id), reply.options);
    }
  }

  method ReadEligible(conn: Socket, id: string) returns (r: Result, certs: seq<string>)
    requires conn.Valid()
    modifies conn, conn.net, conn.session, conn.session.store
    ensures OnlyRead(conn, r)
    ensures r == Success ==> AreEligible(conn.Sees(), id, certs)
  {
    var reply;
    certs := [];
    r, reply := Query(conn, SelectEligible(id));
    if r == Success && !reply.EligibleRows? {
      r := StoreFailed;
    }
    if r == Success {
      certs := CertsOf(Cut(reply.eligible, MAX_VOTERS));
      RowsMatch(conn.Sees().eligible, EligibleFor(id), reply.eligible);
      CertsRead(conn.Sees(), id, reply.eligible);
    }
  }

  method ReadLists(conn: Socket, id: string) returns (r: Result, names: seq<string>, count: nat, certs: seq<string>)
    requires conn.Valid()
    modifies conn, conn.net, conn.session, conn.session.store
    ensures OnlyRead(conn, r)
    ensures r == Success ==> AreOptions(conn.Sees(), id, names, count) && AreEligible(conn.Sees(), id, certs)
  {
    certs := [];
    r, names, count := ReadOptions(conn, id);
    if r == Success {
      r, certs := ReadEligible(conn, id);
    }
  }

  method RunGetElection(conn: Socket, id: string) returns (r: Result, e: Option<Election>)
    requires conn.Valid()
    modifies conn, conn.net, conn.session, conn.session.store
    ensures OnlyRead(conn, r)
    ensures r == Success && e.None? ==> forall x :: x in conn.Sees().elections ==> x.id != id
    ensures r == Success && e.Some? ==> IsElection(conn.Sees(), id, e.value)
  {
    var row;
    e := None;
    r, row := FirstElection(conn, id);
    if r != Success || row.None? {
      return;
    }
    var names, count, certs;
    r, names, count, certs := ReadLists(conn, id);
    if r == Success {
      var x := row.value;
      e := Some(Election(id, x.title, x.state, x.openTime, x.closeTime, names, count, certs));
    }
  }

  lemma CertsRead(d: Db, id: string, rows: seq<EligibleRow>)
    requires multiset(rows) == Filter(d.eligible, EligibleFor(id))
    ensures forall c :: c in CertsOf(Cut(rows, MAX_VOTERS)) ==> EligibleRow(id, c) in d.eligible
    ensures |rows| <= MAX_VOTERS ==>
              forall c :: EligibleRow(id, c) in d.eligible ==> c in CertsOf(Cut(rows, MAX_VOTERS))
  {
    var certs := CertsOf(Cut(rows, MAX_VOTERS));
    forall c | c in certs
      ensures EligibleRow(id, c) in d.eligible
    {
      var i :| 0 <= i < |certs| && certs[i] == c;
      assert rows[i] in multiset(rows);
    }
    forall c | |rows| <= MAX_VOTERS && EligibleRow(id, c) in d.eligible
      ensures c in certs
    {
      assert EligibleRow(id, c) in multiset(rows);
      var i :| 0 <= i < |rows| && rows[i] == EligibleRow(id, c);
      assert certs[i] == c;
    }
  }

  lemma FilterAppend<T(!new)>(rows: seq<T>, k: nat, p: T -> bool)
    requires k < |rows|
    ensures |Filter(multiset(rows[..k + 1]), p)| == |Filter(multiset(rows[..k]), p)| + if p(rows[k]) then 1 else 0
  {
    assert rows[..k + 1] == rows[..k] + [rows[k]];
    var one := if p(rows[k]) then multiset{rows[k]} else multiset{};
    assert Filter(multiset(rows[..k + 1]), p) == Filter(multiset(rows[..k]), p) + one;
  }

  /** The tally loop over the live rows' option indices. */
  method CountOptions(id: string, rows: seq<BallotRow>) returns (tally: seq<nat>)
    requires forall k :: 0 <= k < |rows| ==> LiveIn(id)(rows[k])
    ensures |tally| == MAX_OPTIONS
    ensures forall i :: 0 <= i < MAX_OPTIONS ==> tally[i] == |Filter(multiset(rows), LiveFor(id, i))|
  {
    tally := seq(MAX_OPTIONS, _ => 0);
    for k := 0 to |rows|
      invariant |tally| == MAX_OPTIONS
      invariant forall i :: 0 <= i < MAX_OPTIONS ==> tally[i] == |Filter(multiset(rows[..k]), LiveFor(id, i))|
    {
      forall i | 0 <= i < MAX_OPTIONS
        ensures |Filter(multiset(rows[..k + 1]), LiveFor(id, i))|
                == |Filter(multiset(rows[..k]), LiveFor(id, i))| + if i == rows[k].option then 1 else 0
      {
        FilterAppend(rows, k, LiveFor(id, i));
      }
      var index := rows[k].option;
      if 0 <= index < MAX_OPTIONS {
        tally := tally[index := tally[index] + 1];
      }
    }
    assert rows[..|rows|] == rows;
  }

  method RunGetTally(conn: Socket, id: string) returns (r: Result, tally: seq<nat>)
    requires conn.Valid()
    modifies conn, conn.net, conn.session, conn.session.store
    ensures OnlyRead(conn, r)
    ensures r == Success ==>
              && |tally| == MAX_OPTIONS
              && forall i :: 0 <= i < MAX_OPTIONS ==> tally[i] == |Filter(conn.Sees().ballots, LiveFor(id, i))|
  {
    var reply;
    tally := [];
    r, reply := Query(conn, SelectLive(id));
    if r == Success && !reply.BallotRows? {
      r := StoreFailed;
    }
    if r == Success {
      RowsMatch(conn.Sees().ballots, LiveIn(id), reply.ballots);
      tally := CountOptions(id, reply.ballots);
      LiveOptions(conn.Sees().ballots, id);
    }
  }

  lemma LiveOptions(m: multiset<BallotRow>, id: string)
    ensures forall i :: Filter(Filter(m, LiveIn(id)), LiveFor(id, i)) == Filter(m, LiveFor(id, i))
  {
  }

  method RunGetHashes(conn: Socket, id: string) returns (r: Result, rows: seq<BallotRow>)
    requires conn.Valid()
    modifies conn, conn.net, conn.session, conn.session.store
    ensures OnlyRead(conn, r)
    ensures r == Success ==> AreHashes(conn.Sees(), id, rows)
  {
    var reply;
    rows := [];
    r, reply := Query(conn, SelectLive(id));
    if r == Success && !reply.BallotRows? {
      r := StoreFailed;
    }
    if r == Success {
      RowsMatch(conn.Sees().ballots, LiveIn(id), reply.ballots);
      rows := Cut(reply.ballots, MAX_VOTERS);
      var rest := reply.ballots[|rows|..];
      assert reply.ballots == rows + rest;
    }
  }

  method RunFindHash(conn: Socket, id: string, hash: string) returns (r: Result, row: Option<BallotRow>)
    requires conn.Valid()
    modifies conn, conn.net, conn.session, conn.session.store
    ensures OnlyRead(conn, r)
    ensures r == Success ==> FindsLive(conn.Sees(), id, hash, row)
  {
    var reply;
    row := None;
    r, reply := Query(conn, SelectLiveHash(id, hash));
    if r == Success && !reply.BallotRows? {
      r := StoreFailed;
    }
    if r == Success {
      RowsMatch(conn.Sees().ballots, LiveHash(id, hash), reply.ballots);
      if reply.ballots != [] {
        row := Some(reply.ballots[0]);
      }
    }
  }

  method RunNonceSeen(conn: Socket, id: string, nonce: string) returns (r: Result, seen: bool)
    requires conn.Valid()
    modifies conn, conn.net, conn.session, conn.session.store
    ensures OnlyRead(conn, r)
    ensures r == Success ==> (seen <==> NonceRow(id, nonce) in conn.Sees().nonces)
  {
    var reply;
    seen := false;
    r, reply := Query(conn, SelectNonce(id, nonce));
    if r == Success && !reply.NonceRows? {
      r := StoreFailed;
    }
    if r == Success {
      RowsMatch(conn.Sees().nonces, NonceIs(id, nonce), reply.nonces);
      seen := |reply.nonces| > 0;
      assert seen ==> reply.nonces[0] == NonceRow(id, nonce);
    }
  }

  method RunGetPriorBallot(conn: Socket, id: string, cert: string) returns (r: Result, prior: Option<OwnerRow>)
    requires conn.Valid()
    modifies conn, conn.net, conn.session, conn.session.store
    ensures OnlyRead(conn, r)
    ensures r == Success ==> FindsOwner(conn.Sees(), id, cert, prior)
  {
    var reply;
    prior := None;
    r, reply := Query(conn, SelectOwner(id, cert));
    if r == Success && !reply.OwnerRows? {
      r := StoreFailed;
    }
    if r == Success {
      RowsMatch(conn.Sees().owners, OwnedBy(id, cert), reply.owners);
      if reply.owners != [] {
        prior := Some(reply.owners[0]);
      }
    }
  }

  method RunWrite(conn: Socket, cmd: Command) returns (r: Result)
    requires conn.Valid() && cmd.IsWrite()
    modifies conn, conn.net, conn.session, conn.session.store
    ensures OnlyStaged(conn, r)
    ensures r == Success ==> Performs(cmd, old(conn.Sees()), conn.Sees(), Nothing)
    ensures Excused(conn, r, Runnable(cmd, old(conn.Sees())))
  {
    if cmd.AddElection? {
      r := RunAddElection(conn, cmd.id, cmd.config);
    } else if cmd.AppendBallot? {
      r := RunAppendBallot(conn, cmd.row);
    } else if cmd.MarkNonce? {
      r := RunMarkNonce(conn, cmd.id, cmd.nonce);
    } else {
      r := RunReplace(conn, cmd);
    }
  }

  /** The writes that delete a row and insert it anew. */
  method RunReplace(conn: Socket, cmd: Command) returns (r: Result)
    requires conn.Valid() && (cmd.SetState? || cmd.MarkSuperseded? || cmd.SetOwner?)
    modifies conn, conn.net, conn.session, conn.session.store
    ensures OnlyStaged(conn, r)
    ensures r == Success ==> Performs(cmd, old(conn.Sees()), conn.Sees(), Nothing)
    ensures Excused(conn, r, Runnable(cmd, old(conn.Sees())))
  {
    match cmd {
      case SetState(id, state) => r := RunSetState(conn, id, state);
      case MarkSuperseded(id, hash) => r := RunMarkSuperseded(conn, id, hash);
      case SetOwner(id, cert, hash, version) => r := RunSetOwner(conn, OwnerRow(id, cert, hash, version));
    }
  }

  method RunRead(conn: Socket, cmd: Command) returns (r: Result, ans: Answer)
    requires conn.Valid() && !cmd.IsWrite()
    modifies conn, conn.net, conn.session, conn.session.store
    ensures OnlyRead(conn, r)
    ensures r == Success ==> Performs(cmd, conn.Sees(), conn.Sees(), ans)
  {
    match cmd {
      case GetElection(id) =>
        var e;
        r, e := RunGetElection(conn, id);
        ans := TheElection(e);
      case GetTally(id) =>
        var tally;
        r, tally := RunGetTally(conn, id);
        ans := TheTally(tally);
      case GetHashes(id) =>
        var rows;
        r, rows := RunGetHashes(conn, id);
        ans := TheHashes(rows);
      case FindHash(id, hash) =>
        var row;
        r, row := RunFindHash(conn, id, hash);
        ans := TheRow(row);
      case NonceSeen(id, nonce) =>
        var seen;
        r, seen := RunNonceSeen(conn, id, nonce);
        ans := Seen(seen);
      case GetPriorBallot(id, cert) =>
        var prior;
        r, prior := RunGetPriorBallot(conn, id, cert);
        ans := ThePrior(prior);
    }
  }

  /** One command over an open connection. */
  method RunOp(conn: Socket, cmd: Command) returns (r: Result, ans: Answer)
    requires conn.Valid()
    modifies conn, conn.net, conn.session, conn.session.store
    ensures Ran(conn, cmd, r, ans)
  {
    if cmd.IsWrite() {
      r := RunWrite(conn, cmd);
      ans := Nothing;
    } else {
      r, ans := RunRead(conn, cmd);
    }
  }
}
