/** The option type every module shares. */
module Options {

  datatype Option<+T> = None | Some(value: T)
}

/**
 The six SimpleDB tables of the ballot store, and the SQL texts that libballotbrain
 sends to them.

 A table is a multiset of rows: SimpleDB promises no order between the rows of a
 select, has no keys and no UPDATE statement. Each SQL text of db.c is one
 constructor of `Statement`.
 */
module Tables {
  import opened Options

  // ---- selecting and deleting by a where clause

  ghost predicate IsFilter<T(!new)>(m: multiset<T>, p: T -> bool, r: multiset<T>)
  {
    forall x :: r[x] == if p(x) then m[x] else 0
  }

  lemma {:induction false} FilterExists<T(!new)>(m: multiset<T>, p: T -> bool)
    ensures exists r :: IsFilter(m, p, r)
    decreases |m|
  {
    if m == multiset{} {
      assert IsFilter(m, p, m);
    } else {
      var x :| x in m;
      FilterExists(m - multiset{x}, p);
      var r :| IsFilter(m - multiset{x}, p, r);
      assert IsFilter(m, p, if p(x) then r + multiset{x} else r);
    }
  }

  /** The rows of a table that satisfy a where clause, with their multiplicities. */
  ghost function Filter<T(!new)>(m: multiset<T>, p: T -> bool): (r: multiset<T>)
    ensures forall x :: r[x] == if p(x) then m[x] else 0
  {
    FilterExists(m, p);
    var r :| IsFilter(m, p, r);
    r
  }

  lemma FilterSplit<T(!new)>(m: multiset<T>, p: T -> bool, x: T)
    requires x in m
    ensures Filter(m, p) == Filter(m - multiset{x}, p) + if p(x) then multiset{x} else multiset{}
  {
  }

  /** The matching rows in whatever order the runner prints them. */
  method Select<T(!new, ==)>(m: multiset<T>, p: T -> bool) returns (rows: seq<T>)
    ensures multiset(rows) == Filter(m, p)
  {
    var rest := m;
    rows := [];
    while rest != multiset{}
      invariant multiset(rows) + Filter(rest, p) == Filter(m, p)
      decreases |rest|
    {
      var x :| x in rest;
      FilterSplit(rest, p, x);
      if p(x) {
        rows := rows + [x];
      }
      rest := rest - multiset{x};
    }
  }

  /** What a delete leaves behind. */
  method DeleteWhere<T(!new, ==)>(m: multiset<T>, p: T -> bool) returns (r: multiset<T>)
    ensures r == m - Filter(m, p)
  {
    var gone := Select(m, p);
    r := m - multiset(gone);
  }

  // ---- rows

  datatype State = Draft | Open | Closed | Published

  datatype ElectionRow = ElectionRow(number: int, id: string, title: string, state: State,
                                     openTime: string, closeTime: string)
  datatype OptionRow = OptionRow(election: string, index: int, name: string)
  datatype EligibleRow = EligibleRow(election: string, cert: string)
  datatype BallotRow = BallotRow(election: string, hash: string, option: int, version: int,
                                 superseded: bool)
  datatype OwnerRow = OwnerRow(election: string, cert: string, hash: string, version: int)
  datatype NonceRow = NonceRow(election: string, nonce: string)

  datatype Db = Db(elections: multiset<ElectionRow>,
                   options: multiset<OptionRow>,
                   eligible: multiset<EligibleRow>,
                   ballots: multiset<BallotRow>,
                   owners: multiset<OwnerRow>,
                   nonces: multiset<NonceRow>)

  // ---- where clauses

  function IdIs(id: string): ElectionRow -> bool { (r: ElectionRow) => r.id == id }
  function OptionOf(id: string): OptionRow -> bool { (r: OptionRow) => r.election == id }
  function EligibleFor(id: string): EligibleRow -> bool { (r: EligibleRow) => r.election == id }
  function HashIs(id: string, hash: string): BallotRow -> bool { (r: BallotRow) => r.election == id && r.hash == hash }
  function LiveIn(id: string): BallotRow -> bool { (r: BallotRow) => r.election == id && !r.superseded }
  function LiveHash(id: string, hash: string): BallotRow -> bool
  {
    (r: BallotRow) => r.election == id && r.hash == hash && !r.superseded
  }
  function OwnedBy(id: string, cert: string): OwnerRow -> bool { (r: OwnerRow) => r.election == id && r.cert == cert }
  function NonceIs(id: string, nonce: string): NonceRow -> bool { (r: NonceRow) => r.election == id && r.nonce == nonce }

  // ---- statements

  datatype Statement =
    | Begin
    | Commit
    | Rollback
    | InsertElection(electionRow: ElectionRow)
    | DeleteElection(id: string)
    | SelectElection(id: string)
    | SelectMaxNumber
    | InsertOption(optionRow: OptionRow)
    | SelectOptions(id: string)
    | InsertEligible(eligibleRow: EligibleRow)
    | SelectEligible(id: string)
    | InsertBallot(ballotRow: BallotRow)
    | DeleteBallot(id: string, hash: string)
    | SelectBallot(id: string, hash: string)
    | SelectLive(id: string)
    | SelectLiveHash(id: string, hash: string)
    | InsertOwner(ownerRow: OwnerRow)
    | DeleteOwner(id: string, cert: string)
    | SelectOwner(id: string, cert: string)
    | InsertNonce(nonceRow: NonceRow)
    | SelectNonce(id: string, nonce: string)
  {
    predicate IsControl() { Begin? || Commit? || Rollback? }

    predicate IsWrite() {
      || InsertElection? || DeleteElection? || InsertOption? || InsertEligible? || InsertBallot?
      || DeleteBallot? || InsertOwner? || DeleteOwner? || InsertNonce?
    }

    predicate IsSelect() { !IsControl() && !IsWrite() }
  }

  /** The tables after a write statement. */
  ghost function Effect(s: Statement, d: Db): Db
  {
    match s
    case DeleteElection(id) => d.(elections := d.elections - Filter(d.elections, IdIs(id)))
    case DeleteBallot(id, hash) => d.(ballots := d.ballots - Filter(d.ballots, HashIs(id, hash)))
    case DeleteOwner(id, cert) => d.(owners := d.owners - Filter(d.owners, OwnedBy(id, cert)))
    case _ => Inserted(s, d)
  }

  method Apply(s: Statement, d: Db) returns (d': Db)
    ensures d' == Effect(s, d)
  {
    if s.DeleteElection? || s.DeleteBallot? || s.DeleteOwner? {
      d' := ApplyDelete(s, d);
    } else {
      d' := Inserted(s, d);
    }
  }

  /** The tables after an insert; any other statement leaves them. */
  function Inserted(s: Statement, d: Db): Db
  {
    match s
    case InsertElection(r) => d.(elections := d.elections + multiset{r})
    case InsertOption(r) => d.(options := d.options + multiset{r})
    case InsertEligible(r) => d.(eligible := d.eligible + multiset{r})
    case InsertBallot(r) => d.(ballots := d.ballots + multiset{r})
    case InsertOwner(r) => d.(owners := d.owners + multiset{r})
    case InsertNonce(r) => d.(nonces := d.nonces + multiset{r})
    case _ => d
  }

  method ApplyDelete(s: Statement, d: Db) returns (d': Db)
    requires s.DeleteElection? || s.DeleteBallot? || s.DeleteOwner?
    ensures d' == Effect(s, d)
  {
    if s.DeleteElection? {
      var rows := DeleteWhere(d.elections, IdIs(s.id));
      d' := d.(elections := rows);
    } else if s.DeleteBallot? {
      var rows := DeleteWhere(d.ballots, HashIs(s.id, s.hash));
      d' := d.(ballots := rows);
    } else {
      var rows := DeleteWhere(d.owners, OwnedBy(s.id, s.cert));
      d' := d.(owners := rows);
    }
  }

  // ---- replies

  datatype Reply =
    | NoRows
    | ElectionRows(elections: seq<ElectionRow>)
    | MaxNumber(max: Option<int>)
    | OptionRows(options: seq<OptionRow>)
    | EligibleRows(eligible: seq<EligibleRow>)
    | BallotRows(ballots: seq<BallotRow>)
    | OwnerRows(owners: seq<OwnerRow>)
    | NonceRows(nonces: seq<NonceRow>)

  /** `max` is the aggregate max(seq) over the election table. */
  ghost predicate IsMaxNumber(d: Db, max: Option<int>)
  {
    match max
    case None => d.elections == multiset{}
    case Some(v) =>
      && (exists r :: r in d.elections && r.number == v)
      && (forall r :: r in d.elections ==> r.number <= v)
  }

  /** The reply carries exactly the matching rows, in any order. */
  ghost predicate Answers(s: Statement, d: Db, reply: Reply)
  {
    match s
    case SelectElection(id) =>
      reply.ElectionRows? && multiset(reply.elections) == Filter(d.elections, IdIs(id))
    case SelectMaxNumber => reply.MaxNumber? && IsMaxNumber(d, reply.max)
    case SelectOptions(id) =>
      reply.OptionRows? && multiset(reply.options) == Filter(d.options, OptionOf(id))
    case SelectEligible(id) =>
      reply.EligibleRows? && multiset(reply.eligible) == Filter(d.eligible, EligibleFor(id))
    case SelectBallot(id, hash) =>
      reply.BallotRows? && multiset(reply.ballots) == Filter(d.ballots, HashIs(id, hash))
    case SelectLive(id) =>
      reply.BallotRows? && multiset(reply.ballots) == Filter(d.ballots, LiveIn(id))
    case SelectLiveHash(id, hash) =>
      reply.BallotRows? && multiset(reply.ballots) == Filter(d.ballots, LiveHash(id, hash))
    case SelectOwner(id, cert) =>
      reply.OwnerRows? && multiset(reply.owners) == Filter(d.owners, OwnedBy(id, cert))
    case SelectNonce(id, nonce) =>
      reply.NonceRows? && multiset(reply.nonces) == Filter(d.nonces, NonceIs(id, nonce))
    case _ => reply.NoRows?
  }

  method MaxOf(d: Db) returns (max: Option<int>)
    ensures IsMaxNumber(d, max)
  {
    var rest := d.elections;
    max := None;
    while rest != multiset{}
      invariant rest <= d.elections
      invariant IsMaxNumber(d.(elections := d.elections - rest), max)
      decreases |rest|
    {
      var r :| r in rest;
      ghost var seen := d.elections - rest;
      rest := rest - multiset{r};
      assert d.elections - rest == seen + multiset{r};
      assert r in d.elections - rest;
      if max.None? || max.value < r.number {
        max := Some(r.number);
      } else {
        ghost var w :| w in seen && w.number == max.value;
        assert w in d.elections - rest;
      }
    }
    assert d.elections - rest == d.elections;
  }

  method Answer(s: Statement, d: Db) returns (reply: Reply)
    ensures Answers(s, d, reply)
  {
    match s {
      case SelectElection(id) =>
        var rows := Select(d.elections, IdIs(id));
        reply := ElectionRows(rows);
      case SelectMaxNumber =>
        var max := MaxOf(d);
        reply := MaxNumber(max);
      case SelectOptions(id) =>
        var rows := Select(d.options, OptionOf(id));
        reply := OptionRows(rows);
      case SelectEligible(id) =>
        var rows := Select(d.eligible, EligibleFor(id));
        reply := EligibleRows(rows);
      case SelectBallot(id, hash) =>
        var rows := Select(d.ballots, HashIs(id, hash));
        reply := BallotRows(rows);
      case SelectLive(id) =>
        var rows := Select(d.ballots, LiveIn(id));
        reply := BallotRows(rows);
      case SelectLiveHash(id, hash) =>
        var rows := Select(d.ballots, LiveHash(id, hash));
        reply := BallotRows(rows);
      case SelectOwner(id, cert) =>
        var rows := Select(d.owners, OwnedBy(id, cert));
        reply := OwnerRows(rows);
      case SelectNonce(id, nonce) =>
        var rows := Select(d.nonces, NonceIs(id, nonce));
        reply := NonceRows(rows);
      case _ => reply := NoRows;
    }
  }
}
