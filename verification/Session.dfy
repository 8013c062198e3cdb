/**
 One SQL session of the SocketRunner (db/src/java/simpledb/StatementSession.java over
 Parser.java): a current transaction, the flag saying whether the client opened it, and
 the classification of every statement's outcome.

 A transaction is a private copy of the tables that commit installs and abort discards:
 SimpleDB's transactions are taken to be atomic and serialisable.
 */
module Session {
  import opened Options
  import opened Tables

  /** The marker the runner prints after a statement. */
  datatype Status = Ok | Retry | Error | Timeout | Io

  /**
   What happens inside the runner while it executes one statement.
   - Completes: the statement runs
   - Deadlocks: TransactionAbortedException, the transaction is aborted
   - Fails: any other exception, the transaction is aborted
   - LooksWrong: the statement runs, but its output is taken for an error message
   - Garbled: the statement text does not parse, so nothing runs
   */
  datatype Event = Completes | Deadlocks | Fails | LooksWrong | Garbled

  /** The committed tables, shared by every session. */
  class Database {
    var tables: Db

    constructor (d: Db)
      ensures tables == d
    {
      tables := d;
    }
  }

  class StatementSession {
    const store: Database
    var curtrans: Option<Db>
    var inUserTrans: bool

    constructor (store: Database)
      ensures this.store == store && Settled() && curtrans.None?
    {
      this.store := store;
      curtrans := None;
      inUserTrans := false;
    }

    /** Between statements a transaction is current exactly when the client opened it. */
    ghost predicate Settled()
      reads this
    {
      curtrans.Some? <==> inUserTrans
    }

    /** The tables a statement acts on: the transaction's copy, or the committed ones. */
    ghost function Sees(): Db
      reads this, store
    {
      if curtrans.Some? then curtrans.value else store.tables
    }

    /** handleTransactStatement: begin, commit and rollback. */
    method Control(s: Statement, ev: Event) returns (status: Status)
      requires Settled() && s.IsControl()
      modifies this, store
      ensures Settled()
      ensures status != Timeout && status != Io
      // The committed tables move only at a commit, to the transaction's own copy.
      ensures store.tables != old(store.tables) ==> s.Commit? && old(curtrans) == Some(store.tables)
      ensures s.Begin? ==>
                && (status == Ok <==> old(curtrans).None?)
                && curtrans == if status == Ok then Some(old(store.tables)) else old(curtrans)
      ensures s.Commit? || s.Rollback? ==> curtrans.None? && (status == Ok ==> old(curtrans).Some?)
      ensures s.Commit? && status == Ok ==> old(curtrans) == Some(store.tables)
      ensures status != Ok ==> store.tables == old(store.tables)
      ensures status == Retry ==> s.Commit? && curtrans.None? && ev.Deadlocks?
      ensures (ev.Completes? || ev.Deadlocks?) && (if s.Begin? then old(curtrans).None? else old(curtrans).Some?) ==>
                status == Ok || (status == Retry && ev.Deadlocks?)
    {
      status := Ok;
      match s {
        case Begin =>
          if curtrans.Some? {
            status := Error;
          } else {
            curtrans, inUserTrans := Some(store.tables), true;
          }
        case Commit =>
          if curtrans.None? {
            status := Error;
          } else {
            if ev.Deadlocks? {
              status := Retry;
            } else if ev.Fails? {
              status := Error;
            } else {
              store.tables := curtrans.value;
            }
            curtrans, inUserTrans := None, false;
          }
        case Rollback =>
          if curtrans.None? {
            status := Error;
          }
          curtrans, inUserTrans := None, false;
      }
    }

    /** The rest of processNextStatement: inserts, deletes and selects. */
    method Process(s: Statement, ev: Event) returns (status: Status, reply: Reply)
      requires Settled() && !s.IsControl()
      modifies this, store
      ensures Settled()
      ensures status != Timeout && status != Io
      // The committed tables move only by a statement outside any transaction.
      ensures store.tables != old(store.tables) ==>
                old(curtrans).None? && !s.IsSelect() && store.tables == Effect(s, old(store.tables))
      // The marker ok means the statement took effect where it stood.
      ensures status == Ok ==> Sees() == Effect(s, old(Sees())) && Answers(s, old(Sees()), reply)
      ensures status == Ok || old(curtrans).None? ==> curtrans.Some? == old(curtrans).Some?
      // A failed statement has lost the whole transaction it stood in, unless only its text or
      // its output was at fault.
      ensures status != Ok && old(curtrans).Some? ==>
                curtrans == match ev
                            case LooksWrong => Some(Effect(s, old(curtrans.value)))
                            case Garbled => old(curtrans)
                            case _ => None
      ensures status != Ok && !ev.LooksWrong? ==> store.tables == old(store.tables)
      ensures status == Ok <==> ev.Completes?
      ensures status == Retry <==> ev.Deadlocks?
    {
      status, reply := Ok, NoRows;
      if ev.Garbled? {
        return Error, NoRows;
      }
      if !inUserTrans {
        curtrans := Some(store.tables);
      }
      if ev.Completes? || ev.LooksWrong? {
        reply := Answer(s, curtrans.value);
        var d' := Apply(s, curtrans.value);
        curtrans := Some(d');
        if !inUserTrans {
          store.tables := d';
        }
        if ev.LooksWrong? {
          status := Error;
        }
      } else {
        inUserTrans := false;
        status := if ev.Deadlocks? then Retry else Error;
      }
      if !inUserTrans {
        curtrans := None;
      }
    }

    /** Abandon the session: an open transaction is rolled back. */
    method Close()
      modifies this
      ensures curtrans.None?
    {
      curtrans := None;
    }
  }
}

/**
 One client connection to the runner (src/libtetrisdb/socket/socket.c). The adversary
 decides, exchange by exchange, whether a statement reaches the runner, what happens to
 it there and whether the marker comes back.
 */
module Connection {
  import opened Options
  import opened Tables
  import opened Session

  datatype Fate = Fate(delivered: bool, event: Event, answered: bool, late: bool)
  {
    predicate IsDeadlock() { delivered && event.Deadlocks? && answered }

    /** The statement got through, ran, and its marker came back. */
    predicate IsClean() { delivered && event.Completes? && answered }
  }

  class Network {
    const fate: nat -> Fate
    var clock: nat
    /** How many statements were answered with the retry marker so far, and the latest exchange that was. */
    ghost var retries: nat
    ghost var lastRetry: nat

    constructor (fate: nat -> Fate)
      ensures this.fate == fate
    {
      this.fate := fate;
      clock, retries, lastRetry := 0, 0, 0;
    }

    /** Since then one statement was answered with the retry marker, because its exchange was a
        deadlock; or none was. */
    twostate predicate Heard(retry: bool)
      reads this
    {
      && old(clock) <= clock
      && (!retry ==> retries == old(retries) && lastRetry == old(lastRetry))
      && (retry ==>
            retries == old(retries) + 1 && old(clock) <= lastRetry < clock && fate(lastRetry).IsDeadlock())
    }

    /** The latest exchange got through, and its reply was lost. */
    ghost predicate ReplyLost()
      reads this
    {
      clock > 0 && fate(clock - 1).delivered && !fate(clock - 1).answered
    }

    /** Since then the latest exchange took place, and its reply was lost. */
    twostate predicate JustLost()
      reads this
    {
      old(clock) < clock && ReplyLost()
    }

    /** Some exchange since then was not clean. */
    twostate predicate Troubled()
      reads this
    {
      exists n :: old(clock) <= n < clock && !fate(n).IsClean()
    }

    /** Some exchange since then was neither clean nor a deadlock the client heard of. */
    twostate predicate Broken()
      reads this
    {
      exists n :: old(clock) <= n < clock && !fate(n).IsClean() && !fate(n).IsDeadlock()
    }

    /** Since then three statements were answered with the retry marker, the latest for a deadlock. */
    twostate predicate WornOut()
      reads this
    {
      retries == old(retries) + 3 && old(clock) <= lastRetry < clock && fate(lastRetry).IsDeadlock()
    }

    /** Every statement that can lose a deadlock does. */
    ghost predicate AlwaysDeadlocks()
    {
      forall n :: fate(n) == Fate(true, Deadlocks, true, false)
    }

    method Next() returns (f: Fate)
      modifies this`clock
      ensures f == fate(old(clock)) && clock == old(clock) + 1
    {
      f := fate(clock);
      clock := clock + 1;
    }
  }

  class Socket {
    const net: Network
    const session: StatementSession
    var failed: Status

    constructor (net: Network, store: Database)
      ensures this.net == net && session.store == store && fresh(session)
      ensures Valid() && failed == Ok && View().None?
    {
      this.net := net;
      session := new StatementSession(store);
      failed := Ok;
    }

    ghost predicate Valid()
      reads this, session
    {
      session.Settled() && failed != Retry && failed != Error
    }

    /** The open transaction's copy of the tables, while the connection still works. */
    ghost function View(): Option<Db>
      reads this, session
    {
      if failed == Ok then session.curtrans else None
    }

    /** The tables a statement on this connection acts on. */
    ghost function Sees(): Db
      reads this, session, session.store
    {
      if failed == Ok then session.Sees() else session.store.tables
    }

    /** The marker of a delivered statement comes back, or the connection is stuck from now on. */
    method Marker(f: Fate, status: Status) returns (heard: Status)
      requires failed == Ok
      modifies this`failed
      ensures f.answered ==> heard == status && failed == Ok
      ensures !f.answered ==> heard == failed && (failed == Timeout || failed == Io)
    {
      if f.answered {
        return status;
      }
      failed := if f.late then Timeout else Io;
      return failed;
    }

    /** A delivered begin, commit or rollback. */
    method SendControl(s: Statement, f: Fate) returns (status: Status)
      requires Valid() && failed == Ok && f.delivered && s.IsControl()
      modifies this, session, session.store
      ensures Valid() && (status == Ok ==> failed == Ok) && (status == Retry ==> s.Commit? && f.IsDeadlock())
      ensures s.Begin? || s.Rollback? ==> session.store.tables == old(session.store.tables)
      ensures s.Commit? || s.Rollback? ==> View().None?
      ensures s.Begin? && status == Ok ==> View() == Some(session.store.tables)
      ensures s.Begin? && old(View()).None? && f.answered ==> status == Ok
      ensures s.Commit? && status == Ok ==> old(View()) == Some(session.store.tables)
      ensures (f.IsClean() || f.IsDeadlock()) && (if s.Begin? then old(View()).None? else old(View()).Some?) ==>
                status == Ok || status == Retry
      ensures session.store.tables != old(session.store.tables) ==>
                && old(View()) == Some(session.store.tables) && status != Retry && status != Error
                && (status != Ok ==> !f.answered)
    {
      status := session.Control(s, f.event);
      status := Marker(f, status);
    }

    /** A delivered insert, delete or select. */
    method SendStatement(s: Statement, f: Fate) returns (status: Status, reply: Reply)
      requires Valid() && failed == Ok && f.delivered && !s.IsControl()
      modifies this, session, session.store
      ensures Valid() && (status == Ok ==> failed == Ok) && (status == Retry <==> f.IsDeadlock())
      ensures f.IsClean() ==> status == Ok
      ensures status == Retry ==> View().None?
      ensures status == Ok ==>
                && View().Some? == old(View()).Some?
                && Sees() == Effect(s, old(Sees())) && Answers(s, old(Sees()), reply)
      ensures session.store.tables != old(session.store.tables) ==>
                && old(View()).None? && !s.IsSelect() && status != Retry
                && session.store.tables == Effect(s, old(session.store.tables))
    {
      status, reply := session.Process(s, f.event);
      status := Marker(f, status);
    }

    /** An exchange begins; if it does not get through the connection is stuck. */
    method Reach() returns (f: Fate)
      requires Valid() && failed == Ok
      modifies this`failed, net`clock
      ensures Valid() && f == net.fate(old(net.clock)) && net.clock == old(net.clock) + 1
      ensures if f.delivered then failed == Ok else failed == Timeout || failed == Io
    {
      f := net.Next();
      if !f.delivered {
        failed := if f.late then Timeout else Io;
      }
    }

    /** A begin, commit or rollback on a connection that works. */
    method ExecControl(s: Statement) returns (status: Status)
      requires Valid() && failed == Ok && s.IsControl()
      modifies this, net, session, session.store
      ensures Valid() && (status == Ok ==> failed == Ok) && net.Heard(status == Retry)
      ensures s.Begin? || s.Rollback? ==> session.store.tables == old(session.store.tables) && status != Retry
      ensures s.Commit? || s.Rollback? ==> View().None?
      ensures s.Begin? && status == Ok ==> View() == Some(session.store.tables)
      ensures s.Commit? && status == Ok ==> old(View()) == Some(session.store.tables)
      ensures session.store.tables != old(session.store.tables) ==>
                && old(View()) == Some(session.store.tables) && status != Retry && status != Error
                && (status != Ok ==> net.JustLost())
      ensures status != Ok && status != Retry && (if s.Begin? then old(View()).None? else old(View()).Some?) ==>
                net.Broken()
      ensures net.AlwaysDeadlocks() && s.Begin? && old(View()).None? ==> status == Ok
    {
      var f := Reach();
      if !f.delivered {
        return failed;
      }
      status := SendControl(s, f);
      if status == Retry {
        net.retries, net.lastRetry := net.retries + 1, net.clock - 1;
      }
    }

    /** An insert, delete or select on a connection that works. */
    method ExecStatement(s: Statement) returns (status: Status, reply: Reply)
      requires Valid() && failed == Ok && !s.IsControl()
      modifies this, net, session, session.store
      ensures Valid() && (status == Ok ==> failed == Ok) && net.Heard(status == Retry)
      ensures status == Retry ==> View().None?
      ensures status == Ok ==>
                && View().Some? == old(View()).Some?
                && Sees() == Effect(s, old(Sees())) && Answers(s, old(Sees()), reply)
      ensures session.store.tables != old(session.store.tables) ==>
                && old(View()).None? && !s.IsSelect() && status != Retry
                && session.store.tables == Effect(s, old(session.store.tables))
      ensures status != Ok && status != Retry ==> net.Broken()
      ensures net.AlwaysDeadlocks() ==> status == Retry
    {
      reply := NoRows;
      var f := Reach();
      if !f.delivered {
        return failed, NoRows;
      }
      status, reply := SendStatement(s, f);
      if status == Retry {
        net.retries, net.lastRetry := net.retries + 1, net.clock - 1;
      }
    }

    /**
     One exchange. Once a reply was lost the connection is stuck on that failure and sends
     nothing more, so no statement can follow one whose outcome is unknown.
     */
    method Exec(s: Statement) returns (status: Status, reply: Reply)
      requires Valid()
      modifies this, net, session, session.store
      ensures Valid() && (status == Ok ==> failed == Ok)
      ensures old(failed) != Ok ==>
                status == old(failed) && session.store.tables == old(session.store.tables)
      // a statement takes effect where the connection stands, inside a transaction or outside one
      ensures !s.IsControl() && status == Ok ==>
                && View().Some? == old(View()).Some?
                && Sees() == Effect(s, old(Sees())) && Answers(s, old(Sees()), reply)
      ensures !s.IsControl() && session.store.tables != old(session.store.tables) ==>
                && old(View()).None? && !s.IsSelect() && status != Retry
                && session.store.tables == Effect(s, old(session.store.tables))
      ensures s.Begin? || s.Rollback? ==> session.store.tables == old(session.store.tables) && status != Retry
      // a commit, a rollback and a lost deadlock all end the transaction
      ensures s.Commit? || s.Rollback? || status == Retry ==> View().None?
      ensures s.Begin? && status == Ok ==> View() == Some(session.store.tables)
      ensures s.Commit? ==>
                && (status == Ok ==> old(View()) == Some(session.store.tables))
                && (session.store.tables != old(session.store.tables) ==>
                      && old(View()) == Some(session.store.tables) && status != Retry && status != Error
                      && (status != Ok ==> net.JustLost()))
      ensures net.Heard(status == Retry)
      // a working connection fails only if the exchange was neither clean nor a deadlock
      ensures old(failed) == Ok && status != Ok && status != Retry ==>
                && (!s.IsControl() || (s.Begin? && old(View()).None?) ==> net.Broken())
                && (s.Commit? && old(View()).Some? ==> net.Broken())
      ensures net.AlwaysDeadlocks() && old(failed) == Ok ==>
                && (s.Begin? && old(View()).None? ==> status == Ok)
                && (!s.IsControl() ==> status == Retry)
    {
      reply := NoRows;
      if failed != Ok {
        return failed, NoRows;
      }
      if s.IsControl() {
        status := ExecControl(s);
      } else {
        status, reply := ExecStatement(s);
      }
    }

    /** Hanging up makes the runner abandon the session. */
    method Close()
      modifies session
      ensures session.curtrans.None?
    {
      session.Close();
    }
  }
}
