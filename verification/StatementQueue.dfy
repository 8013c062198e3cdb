/**
 * The bounded statement queue of src/libtetrisdb/pipe/queue.c: submitters, one worker and a child
 * that may die at any statement. Each method is one step taken under the mutex, or one attempt of
 * the worker; `Run` performs any interleaving of them.
 */
module StatementQueue {

  const RESPAWN_MAX := 3

  /** What the child makes of a statement; a dead child is replaced or not. */
  datatype Exec = Done | Rejected | Died(respawns: bool)

  datatype Worker = Waiting | Running(sql: string, attempt: nat) | Exited

  /** The ring slot of the i-th queued statement. */
  function Slot(head: nat, i: nat, cap: nat): (k: nat)
    requires head < cap && i <= cap
    ensures k < cap
  {
    if head + i < cap then head + i else head + i - cap
  }

  lemma NextSlot(head: nat, cap: nat)
    requires head < cap
    ensures (head + 1) % cap == Slot(head, 1, cap)
  {
    if head + 1 < cap {
      assert (head + 1) % cap == head + 1;
    }
  }

  /** The queued statements, oldest first. */
  function Ring(items: seq<string>, head: nat, count: nat): (s: seq<string>)
    requires head < |items| && count <= |items|
    ensures |s| == count
  {
    seq(count, i requires 0 <= i < count => items[Slot(head, i, |items|)])
  }

  class Queue {
    const items: array<string>
    var head: nat
    var tail: nat
    var count: nat
    var stopping: bool
    var dead: bool
    var dropped: nat
    var errors: nat
    var worker: Worker
    ghost var submissions: nat
    ghost var succeeded: nat
    ghost var accepted: seq<string>  // in the order they were taken in
    ghost var finished: seq<string>  // in the order the worker was done with them

    ghost predicate Shaped()
      reads this
    {
      head < items.Length && count <= items.Length && tail == Slot(head, count, items.Length)
    }

    ghost function Contents(): (s: seq<string>)
      reads this, items
      requires Shaped()
      ensures |s| == count
    {
      Ring(items[..], head, count)
    }

    ghost function InFlight(): seq<string>
      reads this
    {
      if worker.Running? then [worker.sql] else []
    }

    /** Conservation, order, and what the worker leaves behind. */
    ghost predicate Valid()
      reads this, items
    {
      && Shaped()
      && submissions == succeeded + errors + dropped + count + |InFlight()|
      && accepted == finished + InFlight() + Contents()
      && (worker.Running? ==> worker.attempt <= RESPAWN_MAX)
      && (worker.Exited? ==> stopping && count == 0)
    }

    /** db_start: a capacity of 0 means 256. */
    constructor (queueCap: nat)
      ensures Valid() && fresh(items) && items.Length == (if queueCap > 0 then queueCap else 256)
      ensures submissions == succeeded == errors == dropped == 0 && accepted == finished == []
      ensures !stopping && !dead && worker == Waiting
    {
      items := new string[if queueCap > 0 then queueCap else 256](_ => "");
      head, tail, count, stopping, dead := 0, 0, 0, false, false;
      dropped, errors, worker, submissions, succeeded := 0, 0, Waiting, 0, 0;
      accepted, finished := [], [];
    }

    /** db_submit: it never waits; a full, stopping or dead queue, or a failed copy, drops. */
    method Submit(sql: string, copied: bool) returns (ok: bool)
      requires Valid()
      modifies this, items
      ensures Valid() && submissions == old(submissions) + 1
      ensures ok <==> copied && old(count) < items.Length && !old(stopping) && !old(dead)
      ensures Contents() == old(Contents()) + (if ok then [sql] else [])
      ensures accepted == old(accepted) + (if ok then [sql] else [])
      ensures dropped == old(dropped) + (if ok then 0 else 1)
      ensures finished == old(finished) && errors == old(errors) && succeeded == old(succeeded)
      ensures worker == old(worker) && stopping == old(stopping) && dead == old(dead)
    {
      submissions := submissions + 1;
      if !copied || count == items.Length || stopping || dead {
        dropped := dropped + 1;
        return false;
      }
      Push(sql);
      accepted := accepted + [sql];
      ok := true;
    }

    method Push(sql: string)
      requires Shaped() && count < items.Length
      modifies this`tail, this`count, items
      ensures Shaped() && Contents() == old(Contents()) + [sql]
    {
      ghost var was := Contents();
      items[tail] := sql;
      NextSlot(tail, items.Length);
      tail := (tail + 1) % items.Length;
      count := count + 1;
      forall i | 0 <= i < count
        ensures Contents()[i] == (was + [sql])[i]
      {
      }
    }

    method Pop() returns (sql: string)
      requires Shaped() && count > 0
      modifies this`head, this`count
      ensures Shaped() && sql == old(Contents())[0] && Contents() == old(Contents())[1..]
    {
      ghost var was := Contents();
      sql := items[head];
      NextSlot(head, items.Length);
      head := (head + 1) % items.Length;
      count := count - 1;
      assert Contents() == was[1..];
    }

    /** dequeue by the waiting worker: the oldest statement, or the exit once stopping and empty. */
    method Dequeue()
      requires Valid() && worker.Waiting?
      modifies this`head, this`count, this`worker
      ensures Valid()
      ensures old(count) > 0 ==> worker == Running(old(Contents())[0], 0) && Contents() == old(Contents())[1..]
      ensures old(count) == 0 ==> worker == (if stopping then Exited else Waiting) && Contents() == []
    {
      if count == 0 {
        if stopping {
          worker := Exited;
        }
        return;
      }
      ghost var was := Contents();
      var sql := Pop();
      worker := Running(sql, 0);
      assert was == [was[0]] + was[1..];
    }

    /** One turn of execute: a dead queue drops, a rejected statement is an error and is not
        retried, a dead child is replaced at most three times for one statement. */
    method Attempt(exec: Exec)
      requires Valid() && worker.Running?
      modifies this`dropped, this`errors, this`dead, this`worker, this`succeeded, this`finished
      ensures Valid()
      ensures var was := old(worker);
              var retries := !old(dead) && exec.Died? && exec.respawns && was.attempt < 3;
              && worker == (if retries then Running(was.sql, was.attempt + 1) else Waiting)
              && finished == old(finished) + (if retries then [] else [was.sql])
              && dead == (old(dead) || (exec.Died? && !retries))
              && errors == old(errors) + (if !old(dead) && exec.Rejected? then 1 else 0)
              && dropped == old(dropped) + (if old(dead) || (exec.Died? && !retries) then 1 else 0)
              && succeeded == old(succeeded) + (if !old(dead) && exec.Done? then 1 else 0)
    {
      var sql, attempt := worker.sql, worker.attempt;
      ghost var rest := Contents();
      assert accepted == (finished + [sql]) + [] + rest;
      if dead {
        dropped := dropped + 1;
      } else if exec.Died? {
        if attempt < RESPAWN_MAX && exec.respawns {
          worker := Running(sql, attempt + 1);
          return;
        }
        dead := true;
        dropped := dropped + 1;
      } else if exec.Rejected? {
        errors := errors + 1;
      } else {
        succeeded := succeeded + 1;
      }
      finished := finished + [sql];
      worker := Waiting;
      assert Contents() == rest && InFlight() == [];
    }

    /** db_stop, up to the join. */
    method RequestStop()
      requires Valid()
      modifies this`stopping
      ensures Valid() && stopping && Contents() == old(Contents())
    {
      stopping := true;
    }

    /** The loop of db_stop that drops what is still queued. */
    method Drain()
      requires Shaped()
      modifies this`head, this`count, this`dropped
      ensures Shaped() && count == 0 && dropped == old(dropped) + old(count)
    {
      while count > 0
        invariant Shaped() && dropped + count == old(dropped) + old(count)
      {
        NextSlot(head, items.Length);
        head := (head + 1) % items.Length;
        count := count - 1;
        dropped := dropped + 1;
      }
    }

    /** How much the worker has left to do once nothing more is taken in. */
    ghost function Left(): nat
      reads this
    {
      6 * count + match worker
                  case Waiting => 1
                  case Running(_, attempt) => 6 - (if attempt <= 4 then attempt else 4)
                  case Exited => 0
    }

    /** Statements that come in once the queue is stopping: every one is dropped and counted. */
    method TurnAway(late: seq<Late>)
      requires Valid() && stopping
      modifies this, items
      ensures Valid() && stopping && Left() == old(Left()) && worker == old(worker) && count == old(count)
      ensures accepted == old(accepted) && submissions == old(submissions) + |late|
      ensures dropped == old(dropped) + |late|
    {
      for k := 0 to |late|
        invariant Valid() && stopping && worker == old(worker) && count == old(count)
        invariant accepted == old(accepted) && submissions == old(submissions) + k
        invariant dropped == old(dropped) + k
      {
        ghost var was := Contents();
        var ok := Submit(late[k].sql, late[k].copied);
        assert !ok && |Contents()| == |was|;
      }
    }

    /** What the worker does next while the queue stops. */
    method Finish(exec: Exec)
      requires Valid() && stopping && !worker.Exited?
      modifies this
      ensures Valid() && stopping && accepted == old(accepted) && submissions == old(submissions)
      ensures Left() < old(Left())
    {
      if worker.Waiting? {
        Dequeue();
      } else {
        Attempt(exec);
      }
    }

    /** db_stop: whatever the child does and whatever is still submitted meanwhile, the worker finishes
        every accepted statement in order and exits, the drain finds nothing left, and every submission
        succeeded, was an error or was dropped. */
    method Stop(exec: nat -> Exec, late: nat -> seq<Late>) returns (drops: nat, errs: nat)
      requires Valid()
      modifies this, items
      ensures Valid() && worker.Exited? && count == 0
      ensures accepted == old(accepted) == finished
      ensures old(submissions) <= submissions == succeeded + errs + drops
      ensures drops == dropped && errs == errors
    {
      RequestStop();
      var i := 0;
      while !worker.Exited?
        invariant Valid() && stopping && accepted == old(accepted) && old(submissions) <= submissions
        decreases Left()
      {
        TurnAway(late(i));
        Finish(exec(i));
        i := i + 1;
      }
      Drain();
      drops, errs := dropped, errors;
    }

    /** Any interleaving of submissions, stop requests and the worker's steps. */
    method Run(schedule: seq<Event>)
      requires Valid()
      modifies this, items
      ensures Valid() && old(accepted) <= accepted && old(finished) <= finished
      ensures old(stopping) ==> stopping && accepted == old(accepted)
      ensures old(dead) ==> dead && accepted == old(accepted) && succeeded == old(succeeded)
      // the closing balance
      ensures worker.Exited? ==> finished == accepted && submissions == succeeded + errors + dropped
    {
      for i := 0 to |schedule|
        invariant Valid() && old(accepted) <= accepted && old(finished) <= finished
        invariant old(stopping) ==> stopping && accepted == old(accepted)
        invariant old(dead) ==> dead && accepted == old(accepted) && succeeded == old(succeeded)
      {
        Act(schedule[i]);
      }
    }

    method Act(e: Event)
      requires Valid()
      modifies this, items
      ensures Valid() && old(accepted) <= accepted && old(finished) <= finished
      ensures old(stopping) ==> stopping && accepted == old(accepted)
      ensures old(dead) ==> dead && accepted == old(accepted) && succeeded == old(succeeded)
    {
      match e
      case Submitted(sql, copied) => var _ := Submit(sql, copied);
      case StopRequested => RequestStop();
      case WorkerStep(exec) =>
        if worker.Waiting? {
          Dequeue();
        } else if worker.Running? {
          Attempt(exec);
        }
    }
  }

  /** A statement submitted while the queue stops. */
  datatype Late = Late(sql: string, copied: bool)

  datatype Event = Submitted(sql: string, copied: bool) | StopRequested | WorkerStep(exec: Exec)
}
