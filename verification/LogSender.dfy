/**
 * The non-blocking log sender of src/libtetrisutil/logmsg.c, as atomic actions of any number of
 * threads on two shared counters and a lock that is only ever tried. Each method is one action
 * of one thread; `Run` performs any interleaving of them.
 */
module LogSender {
  import opened Options

  const ULONG_MAX := 0xFFFF_FFFF_FFFF_FFFF

  /** Where a thread stands in log_vsend or drop_one. */
  datatype Place =
    | Idle
    | Dropping                            // about to add to the lifetime count
    | Counted                             // added; about to read the unreported count
    | Swapping(seen: nat)                 // in the compare-and-exchange loop
    | Locked                              // holds the lock; about to read what to report
    | Sending(report: nat, attempt: nat)  // in the send loop, its record carrying `report`
    | Sent(report: nat)                   // the record is out; about to subtract
    | Reported                            // about to unlock and return 0
    | Failed                              // about to unlock and drop

  predicate Holds(p: Place)
  {
    p.Locked? || p.Sending? || p.Sent? || p.Reported? || p.Failed?
  }

  /** Between the two counter updates of one drop. */
  predicate Between(p: Place) { p.Counted? || p.Swapping? }

  /** What a send may meet. */
  datatype SendOutcome = Delivered | PeerGone(reconnects: bool) | OtherError

  function Caught(threads: map<nat, Place>): set<nat>
  {
    set t | t in threads && Between(threads[t])
  }

  lemma CaughtMoves(threads: map<nat, Place>, t: nat, p: Place)
    requires t in threads
    ensures |Caught(threads[t := p])|
         == |Caught(threads)| + (if Between(p) then 1 else 0) - (if Between(threads[t]) then 1 else 0)
  {
    var was, now := Caught(threads), Caught(threads[t := p]);
    assert now == if Between(p) then was + {t} else was - {t};
    assert t in was <==> Between(threads[t]);
    assert t in was ==> was + {t} == was;
  }

  /** One more, in 64 bits. */
  function Next(n: nat): nat { (n + 1) % (ULONG_MAX + 1) }

  lemma NextWraps(n: nat, total: nat)
    requires n == total % (ULONG_MAX + 1)
    ensures Next(n) == (total + 1) % (ULONG_MAX + 1)
    ensures total + 1 <= ULONG_MAX ==> Next(n) == total + 1
  {
  }

  class Sender {
    var dropped: nat        // glb_dropped, 64 bits
    var unreported: nat     // glb_unreported, 64 bits
    var lock: Option<nat>
    var open: bool
    var maxAttempts: nat
    var threads: map<nat, Place>
    ghost var drops: nat      // every drop there has been
    ghost var delivered: nat  // the drops carried by the records that went out

    /** A report already delivered but not yet subtracted. */
    ghost function Pending(): nat
      reads this
    {
      if lock.Some? && lock.value in threads && threads[lock.value].Sent? then threads[lock.value].report else 0
    }

    /** Every drop is on a delivered record, still unreported, or caught between the counters. */
    ghost predicate Balanced()
      reads this
    {
      drops + Pending() == delivered + unreported + |Caught(threads)|
    }

    ghost predicate Valid()
      reads this
    {
      && dropped == drops % (ULONG_MAX + 1) && unreported <= ULONG_MAX
      && (forall t :: t in threads && Holds(threads[t]) ==> lock == Some(t))
      && (lock.Some? ==> lock.value in threads && Holds(threads[lock.value]))
      && (forall t :: t in threads && (threads[t].Sending? || threads[t].Sent?) ==> threads[t].report <= unreported)
      && Pending() <= delivered
      && (drops <= ULONG_MAX ==>
            && Balanced()
            && forall t :: t in threads && threads[t].Swapping? ==> threads[t].seen < drops)
    }

    /** While a drop is caught between the counters, the unreported count lags the drops. */
    lemma Lags(t: nat)
      requires Valid() && t in threads && Between(threads[t]) && drops <= ULONG_MAX
      ensures unreported < drops
    {
      assert t in Caught(threads);
      assert |Caught(threads)| > 0;
    }

    constructor (ids: set<nat>, attempts: nat)
      ensures Valid() && drops == 0 && delivered == 0
    {
      dropped, unreported, lock, open, maxAttempts := 0, 0, None, false, attempts;
      threads := map t | t in ids :: Idle;
      drops, delivered := 0, 0;
      new;
      assert Caught(threads) == {};
    }

    /** A thread enters log_vsend; without a format, or with the lock taken, it goes to drop. */
    method Enter(t: nat, hasFormat: bool)
      requires Valid() && t in threads && threads[t].Idle?
      modifies this`threads, this`lock
      ensures Valid()
      ensures var locks := hasFormat && old(lock) == None;
              && threads == old(threads)[t := if locks then Locked else Dropping]
              && lock == if locks then Some(t) else old(lock)
    {
      CaughtMoves(threads, t, Dropping);
      CaughtMoves(threads, t, Locked);
      if hasFormat && lock.None? {
        lock := Some(t);
        threads := threads[t := Locked];
      } else {
        threads := threads[t := Dropping];
      }
    }

    /** drop_one, first half: the lifetime count. */
    method CountDrop(t: nat)
      requires Valid() && t in threads && threads[t].Dropping?
      modifies this`dropped, this`threads, this`drops
      ensures Valid() && drops == old(drops) + 1 && threads == old(threads)[t := Counted]
    {
      CaughtMoves(threads, t, Counted);
      NextWraps(dropped, drops);
      dropped := Next(dropped);
      drops := drops + 1;
      threads := threads[t := Counted];
    }

    /** The load before the compare-and-exchange loop. */
    method LoadUnreported(t: nat)
      requires Valid() && t in threads && threads[t].Counted?
      modifies this`threads
      ensures Valid() && threads == old(threads)[t := Swapping(unreported)]
    {
      CaughtMoves(threads, t, Swapping(unreported));
      if drops <= ULONG_MAX { Lags(t); }
      threads := threads[t := Swapping(unreported)];
    }

    /** One turn of the compare-and-exchange loop; a weak exchange may fail for no reason. */
    method CompareExchange(t: nat, spurious: bool)
      requires Valid() && t in threads && threads[t].Swapping?
      modifies this`threads, this`unreported
      ensures Valid()
      // the drop is counted, or the loop goes round; it is given up only at saturation
      ensures old(threads[t].seen) < ULONG_MAX ==>
                if !spurious && old(threads[t].seen) == old(unreported)
                then unreported == old(unreported) + 1 && threads == old(threads)[t := Idle]
                else unreported == old(unreported) && threads == old(threads)[t := Swapping(unreported)]
      ensures old(threads[t].seen) >= ULONG_MAX ==>
                drops > ULONG_MAX && unreported == old(unreported) && threads == old(threads)[t := Idle]
    {
      var seen := threads[t].seen;
      if drops <= ULONG_MAX { Lags(t); }
      CaughtMoves(threads, t, Idle);
      CaughtMoves(threads, t, Swapping(unreported));
      if seen >= ULONG_MAX {
        threads := threads[t := Idle];
      } else if unreported == seen && !spurious {
        unreported := seen + 1;
        threads := threads[t := Idle];
      } else {
        threads := threads[t := Swapping(unreported)];
      }
    }

    /** Under the lock: read what to report, and connect if there is no socket. */
    method LoadReport(t: nat, connects: bool)
      requires Valid() && t in threads && threads[t].Locked?
      modifies this`threads, this`open
      ensures Valid() && open == (old(open) || connects)
      ensures threads == old(threads)[t := if open then Sending(unreported, 0) else Failed]
    {
      CaughtMoves(threads, t, Failed);
      CaughtMoves(threads, t, Sending(unreported, 0));
      if !open && !connects {
        threads := threads[t := Failed];
      } else {
        open := true;
        threads := threads[t := Sending(unreported, 0)];
      }
    }

    /** One turn of the send loop. */
    method Send(t: nat, outcome: SendOutcome)
      requires Valid() && t in threads && threads[t].Sending?
      modifies this`threads, this`open, this`delivered
      ensures Valid()
      ensures var was := old(threads[t]);
              var tries := was.attempt < maxAttempts;
              && delivered == old(delivered) + (if tries && outcome.Delivered? then was.report else 0)
              && threads == old(threads)[t := if !tries then Failed
                                             else match outcome
                                                  case Delivered => Sent(was.report)
                                                  case OtherError => Failed
                                                  case PeerGone(back) =>
                                                    if back then Sending(was.report, was.attempt + 1) else Failed]
    {
      var report, attempt := threads[t].report, threads[t].attempt;
      CaughtMoves(threads, t, Sent(report));
      CaughtMoves(threads, t, Failed);
      CaughtMoves(threads, t, Sending(report, attempt + 1));
      if attempt >= maxAttempts || outcome.OtherError? {
        threads := threads[t := Failed];
      } else if outcome.Delivered? {
        delivered := delivered + report;
        threads := threads[t := Sent(report)];
      } else {
        open := outcome.reconnects;
        threads := threads[t := if open then Sending(report, attempt + 1) else Failed];
      }
    }

    /** The subtraction after a delivery; it never underflows. */
    method Subtract(t: nat)
      requires Valid() && t in threads && threads[t].Sent?
      modifies this`threads, this`unreported
      ensures Valid() && unreported == old(unreported) - old(threads[t].report)
      ensures threads == old(threads)[t := Reported]
    {
      CaughtMoves(threads, t, Reported);
      unreported := unreported - threads[t].report;
      threads := threads[t := Reported];
    }

    method Unlock(t: nat)
      requires Valid() && t in threads && (threads[t].Reported? || threads[t].Failed?)
      modifies this`threads, this`lock
      ensures Valid() && lock == None
      ensures threads == old(threads)[t := if old(threads[t]).Reported? then Idle else Dropping]
    {
      CaughtMoves(threads, t, Idle);
      CaughtMoves(threads, t, Dropping);
      lock := None;
      threads := threads[t := if threads[t].Reported? then Idle else Dropping];
    }

    /** log_open and log_close change the socket with the lock held, so only while no sender has it. */
    method Reopen(connects: bool)
      requires Valid()
      modifies this`open
      ensures Valid() && open == if lock.None? then connects else old(open)
    {
      if lock.None? {
        open := connects;
      }
    }

    /** Whatever one thread does next. */
    method Act(m: Move)
      requires Valid()
      modifies this
      ensures Valid() && drops >= old(drops)
    {
      var t := m.thread;
      if t !in threads {
        Reopen(m.flag);
        return;
      }
      match threads[t]
      case Idle => Enter(t, m.flag);
      case Dropping => CountDrop(t);
      case Counted => LoadUnreported(t);
      case Swapping(_) => CompareExchange(t, m.flag);
      case Locked => LoadReport(t, m.flag);
      case Sending(_, _) => Send(t, m.outcome);
      case Sent(_) => Subtract(t);
      case Reported => Unlock(t);
      case Failed => Unlock(t);
    }

    /** Any interleaving: the books balance at every moment until the 64-bit count saturates, and
        exactly so whenever no thread is inside the sender. */
    method Run(schedule: seq<Move>)
      requires Valid()
      modifies this
      ensures Valid()
      ensures drops <= ULONG_MAX ==> Balanced() && dropped == drops
      ensures drops <= ULONG_MAX && (forall t :: t in threads ==> threads[t].Idle?) ==> dropped == delivered + unreported
    {
      for i := 0 to |schedule|
        invariant Valid()
      {
        Act(schedule[i]);
      }
      assert (forall t :: t in threads ==> threads[t].Idle?) ==> Caught(threads) == {};
    }
  }

  /** One entry of a schedule: a thread and what it meets. */
  datatype Move = Move(thread: nat, flag: bool, outcome: SendOutcome)
}
