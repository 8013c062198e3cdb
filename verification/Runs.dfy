/**
 Whole runs of the daemon: any sequence of requests, served one at a time, with any fate
 for every statement behind them.
 */
module Runs {
  import opened Options
  import opened Tables
  import opened ElectionId
  import opened Commands
  import opened Brain
  import opened BallotLog
  import opened BallotTally
  import opened Refinement

  datatype Event = Event(req: Request, resp: Response, fellBack: bool)

  ghost predicate IsRun(issue: (string, int) -> string, ds: seq<Db>, evs: seq<Event>)
  {
    |ds| == |evs| + 1 && forall i :: 0 <= i < |evs| ==> Took(issue, ds, evs, i)
  }

  ghost predicate Took(issue: (string, int) -> string, ds: seq<Db>, evs: seq<Event>, i: nat)
    requires |ds| == |evs| + 1 && i < |evs|
  {
    Step(issue, ds[i], ds[i + 1], evs[i].req, evs[i].resp, evs[i].fellBack)
  }

  /** Every election created under an allocated number found its id free. */
  ghost predicate AllNumbered(ds: seq<Db>, evs: seq<Event>)
    requires |ds| == |evs| + 1
  {
    forall i :: 0 <= i < |evs| ==> Numbered(ds[i], ds[i + 1], evs[i].req, evs[i].fellBack)
  }

  /** Every ballot recorded superseded one ballot at most. */
  ghost predicate AllAlone(issue: (string, int) -> string, ds: seq<Db>, evs: seq<Event>)
    requires |ds| == |evs| + 1
  {
    forall i :: 0 <= i < |evs| ==> AloneAt(issue, ds, evs, i)
  }

  ghost predicate AloneAt(issue: (string, int) -> string, ds: seq<Db>, evs: seq<Event>, i: nat)
    requires |ds| == |evs| + 1 && i < |evs|
  {
    Alone(issue, ds[i], ds[i + 1], evs[i].req)
  }

  /** Every ballot recorded got a receipt that was new in its election. */
  ghost predicate AllUnshared(issue: (string, int) -> string, ds: seq<Db>, evs: seq<Event>)
    requires |ds| == |evs| + 1
  {
    forall i :: 0 <= i < |evs| ==> Unshared(issue, ds[i], ds[i + 1], evs[i].req)
  }

  lemma TookKept(issue: (string, int) -> string, ds: seq<Db>, evs: seq<Event>, d: Db, e: Event, i: nat)
    requires |ds| == |evs| + 1 && i < |evs| && Took(issue, ds, evs, i)
    ensures Took(issue, ds + [d], evs + [e], i)
  {
    assert (ds + [d])[i] == ds[i] && (ds + [d])[i + 1] == ds[i + 1] && (evs + [e])[i] == evs[i];
  }

  lemma TookLast(issue: (string, int) -> string, ds: seq<Db>, evs: seq<Event>, d: Db, e: Event)
    requires |ds| == |evs| + 1 && Step(issue, ds[|evs|], d, e.req, e.resp, e.fellBack)
    ensures Took(issue, ds + [d], evs + [e], |evs|)
  {
    assert (ds + [d])[|evs|] == ds[|evs|] && (ds + [d])[|evs| + 1] == d && (evs + [e])[|evs|] == e;
  }

  lemma ExtendSteps(issue: (string, int) -> string, ds: seq<Db>, evs: seq<Event>, d: Db, e: Event)
    requires IsRun(issue, ds, evs) && Took(issue, ds + [d], evs + [e], |evs|)
    ensures IsRun(issue, ds + [d], evs + [e])
  {
    forall i | 0 <= i < |evs| + 1
      ensures Took(issue, ds + [d], evs + [e], i)
    {
      if i < |evs| {
        TookKept(issue, ds, evs, d, e, i);
      }
    }
  }

  /** The request was numbered from the store's answer, and answered if it can be served at all. */
  ghost predicate ServedAt(ds: seq<Db>, evs: seq<Event>, i: nat)
  {
    && i < |ds| && i < |evs| && !evs[i].fellBack
    && (Servable(ds[i], evs[i].req) ==> Answered(evs[i].resp.status))
  }

  ghost predicate AllServed(ds: seq<Db>, evs: seq<Event>)
  {
    forall i :: 0 <= i < |evs| ==> ServedAt(ds, evs, i)
  }

  lemma ExtendServed(ds: seq<Db>, evs: seq<Event>, d: Db, e: Event)
    requires |ds| == |evs| + 1 && AllServed(ds, evs)
    requires !e.fellBack && (Servable(ds[|evs|], e.req) ==> Answered(e.resp.status))
    ensures AllServed(ds + [d], evs + [e])
  {
    forall i | 0 <= i < |evs| + 1
      ensures ServedAt(ds + [d], evs + [e], i)
    {
      assert i < |evs| ==> ServedAt(ds, evs, i);
      assert (ds + [d])[i] == ds[i];
    }
  }

  /** One request of a run, served. */
  method ServeOne(ctx: Context, req: Request, ghost ds: seq<Db>, ghost evs: seq<Event>)
    returns (resp: Response, ghost fellBack: bool)
    requires ctx.txn == null && IsRun(ctx.issue, ds, evs) && ds[|evs|] == ctx.store.tables
    modifies ctx, ctx.net, ctx.store
    ensures ctx.txn == null && ctx.net.clock >= old(ctx.net.clock)
    ensures IsRun(ctx.issue, ds + [ctx.store.tables], evs + [Event(req, resp, fellBack)])
    ensures AllServed(ds, evs) ==>
              || AllServed(ds + [ctx.store.tables], evs + [Event(req, resp, fellBack)])
              || ctx.net.Troubled()
  {
    resp, fellBack := ctx.Dispatch(req);
    ghost var e := Event(req, resp, fellBack);
    TookLast(ctx.issue, ds, evs, ctx.store.tables, e);
    ExtendSteps(ctx.issue, ds, evs, ctx.store.tables, e);
    if AllServed(ds, evs) && !fellBack && (Servable(ds[|evs|], req) ==> Answered(resp.status)) {
      ExtendServed(ds, evs, ctx.store.tables, e);
    }
  }

  /** The admin thread's loop: whatever it is asked and whatever fails, it produces a run; and if all
      its exchanges were clean, no number was made up and every request that can be served is answered. */
  method Serve(ctx: Context, reqs: seq<Request>)
    returns (resps: seq<Response>, ghost ds: seq<Db>, ghost evs: seq<Event>)
    requires ctx.txn == null
    modifies ctx, ctx.net, ctx.store
    ensures ctx.txn == null
    ensures IsRun(ctx.issue, ds, evs) && ds[0] == old(ctx.store.tables) && ds[|evs|] == ctx.store.tables
    ensures |evs| == |reqs| == |resps|
    ensures forall i :: 0 <= i < |reqs| ==> evs[i].req == reqs[i] && evs[i].resp == resps[i]
    ensures AllServed(ds, evs) || ctx.net.Troubled()
  {
    resps, ds, evs := [], [ctx.store.tables], [];
    for k := 0 to |reqs|
      invariant ctx.txn == null
      invariant IsRun(ctx.issue, ds, evs) && ds[0] == old(ctx.store.tables) && ds[|evs|] == ctx.store.tables
      invariant |evs| == k == |resps|
      invariant forall i :: 0 <= i < k ==> evs[i].req == reqs[i] && evs[i].resp == resps[i]
      invariant ctx.net.clock >= old(ctx.net.clock) && (AllServed(ds, evs) || ctx.net.Troubled())
    {
      ghost var fellBack;
      var resp;
      resp, fellBack := ServeOne(ctx, reqs[k], ds, evs);
      resps := resps + [resp];
      ds, evs := ds + [ctx.store.tables], evs + [Event(reqs[k], resp, fellBack)];
    }
  }

  const EmptyDb := Db(multiset{}, multiset{}, multiset{}, multiset{}, multiset{}, multiset{})
  const EmptyWorld := World(map[], [])

  lemma {:induction false} EmptyRepresented()
    ensures Represents(EmptyWorld, EmptyDb) && Lawful(EmptyWorld)
  {
    assert Rows([]) == [];
    assert Owners([]) == {};
    assert Nonces([]) == [];
  }

  // ---- runs of the plain world

  /** Elections, verdicts, versions and the log, request by request. */
  ghost predicate IsLawfulRun(ws: seq<World>, evs: seq<Event>)
  {
    |ws| == |evs| + 1 && forall i :: 0 <= i < |evs| ==> Moved(ws, evs, i)
  }

  ghost predicate Moved(ws: seq<World>, evs: seq<Event>, i: nat)
    requires |ws| == |evs| + 1 && i < |evs|
  {
    LawfulStep(ws[i], ws[i + 1], evs[i].req, evs[i].resp)
  }

  ghost predicate IsWorldRun(ws: seq<World>, evs: seq<Event>)
  {
    && IsLawfulRun(ws, evs)
    && (forall i :: 0 <= i < |ws| ==> Lawful(ws[i]))
    && (forall i :: 0 <= i < |evs| ==> CountsRight(ws[i], evs[i].req, evs[i].resp))
  }

  /** The worlds of a run: each tracks the store of its moment, and the log grows by what was recorded. */
  ghost predicate Shadows(issue: (string, int) -> string, ws: seq<World>, ds: seq<Db>, evs: seq<Event>)
  {
    && IsLawfulRun(ws, evs) && |ds| == |ws|
    && (forall i :: 0 <= i < |ds| ==> TrackedAt(ws, ds, i))
    && (forall i :: 0 <= i < |evs| ==> LandsAt(issue, ws, ds, evs, i))
  }

  ghost predicate TrackedAt(ws: seq<World>, ds: seq<Db>, i: nat)
  {
    i < |ws| && i < |ds| && Tracks(ws[i], ds[i]) && Lawful(ws[i])
  }

  ghost predicate LandsAt(issue: (string, int) -> string, ws: seq<World>, ds: seq<Db>, evs: seq<Event>, i: nat)
  {
    |ws| == |ds| == |evs| + 1 && i < |evs| && Lands(issue, ws[i], ws[i + 1], ds[i], ds[i + 1], evs[i].req)
  }

  lemma PrefixRun(issue: (string, int) -> string, ds: seq<Db>, evs: seq<Event>)
    requires IsRun(issue, ds, evs) && AllNumbered(ds, evs) && |evs| > 0
    ensures IsRun(issue, ds[..|evs|], evs[..|evs| - 1]) && AllNumbered(ds[..|evs|], evs[..|evs| - 1])
  {
    var n := |evs| - 1;
    var ds', evs' := ds[..n + 1], evs[..n];
    forall i | 0 <= i < n
      ensures Took(issue, ds', evs', i) && Numbered(ds'[i], ds'[i + 1], evs'[i].req, evs'[i].fellBack)
    {
      assert Took(issue, ds, evs, i) && Numbered(ds[i], ds[i + 1], evs[i].req, evs[i].fellBack);
    }
  }

  lemma {:induction false} ExtendLawful(ws: seq<World>, evs: seq<Event>, w': World)
    requires |evs| > 0 && IsLawfulRun(ws, evs[..|evs| - 1])
    requires LawfulStep(ws[|evs| - 1], w', evs[|evs| - 1].req, evs[|evs| - 1].resp)
    ensures IsLawfulRun(ws + [w'], evs)
  {
    var n := |evs| - 1;
    forall i | 0 <= i < |evs|
      ensures Moved(ws + [w'], evs, i)
    {
      assert i < n ==> Moved(ws, evs[..n], i);
    }
  }

  lemma {:induction false} ExtendShadows(issue: (string, int) -> string, ws: seq<World>, ds: seq<Db>, evs: seq<Event>,
                                         w': World)
    requires |evs| > 0 && |ds| == |evs| + 1 && Shadows(issue, ws, ds[..|evs|], evs[..|evs| - 1])
    requires LawfulStep(ws[|evs| - 1], w', evs[|evs| - 1].req, evs[|evs| - 1].resp)
    requires Lands(issue, ws[|evs| - 1], w', ds[|evs| - 1], ds[|evs|], evs[|evs| - 1].req)
    requires Tracks(w', ds[|evs|]) && Lawful(w')
    ensures Shadows(issue, ws + [w'], ds, evs)
  {
    var n := |evs|;
    ExtendLawful(ws, evs, w');
    forall i | 0 <= i < n + 1
      ensures TrackedAt(ws + [w'], ds, i)
    {
      assert i < n ==> TrackedAt(ws, ds[..n], i) && (ws + [w'])[i] == ws[i] && ds[..n][i] == ds[i];
    }
    forall i | 0 <= i < n
      ensures LandsAt(issue, ws + [w'], ds, evs, i)
    {
      assert i < n - 1 ==> LandsAt(issue, ws, ds[..n], evs[..n - 1], i) && (ws + [w'])[i + 1] == ws[i + 1];
    }
  }

  /** The last event of a run, taken from a world that tracks the store before it. */
  lemma {:induction false} LastStep(issue: (string, int) -> string, ds: seq<Db>, evs: seq<Event>, w: World)
    returns (w': World)
    requires IsRun(issue, ds, evs) && AllNumbered(ds, evs) && |evs| > 0
    requires Tracks(w, ds[|evs| - 1]) && Lawful(w)
    ensures var n := |evs|;
            && Tracks(w', ds[n]) && Lawful(w') && LawfulStep(w, w', evs[n - 1].req, evs[n - 1].resp)
            && Lands(issue, w, w', ds[n - 1], ds[n], evs[n - 1].req)
  {
    var n := |evs|;
    assert Took(issue, ds, evs, n - 1);
    assert Numbered(ds[n - 1], ds[n], evs[n - 1].req, evs[n - 1].fellBack);
    w' := StepTracks(issue, w, ds[n - 1], ds[n], evs[n - 1].req, evs[n - 1].resp, evs[n - 1].fellBack);
  }

  /** Every run from an empty store whose allocated ids were free is a run of the plain world, but for
      what is read off the ballot rows; no receipt need be new. */
  lemma {:induction false} RunTracks(issue: (string, int) -> string, ds: seq<Db>, evs: seq<Event>)
    returns (ws: seq<World>)
    requires IsRun(issue, ds, evs) && AllNumbered(ds, evs) && ds[0] == EmptyDb
    ensures Shadows(issue, ws, ds, evs) && ws[0] == EmptyWorld
  {
    var n := |evs|;
    if n == 0 {
      EmptyRepresented();
      ws := [EmptyWorld];
    } else {
      PrefixRun(issue, ds, evs);
      var init := RunTracks(issue, ds[..n], evs[..n - 1]);
      assert TrackedAt(init, ds[..n], n - 1);
      var w' := LastStep(issue, ds, evs, init[n - 1]);
      ExtendShadows(issue, init, ds, evs, w');
      ws := init + [w'];
    }
  }

  /** There is a ballot row for each nonce. */
  ghost predicate LevelAt(ds: seq<Db>, i: nat) { i < |ds| && |ds[i].ballots| == |ds[i].nonces| }

  ghost predicate AllLevel(ds: seq<Db>) { forall i :: 0 <= i < |ds| ==> LevelAt(ds, i) }

  /** What one request does to the ballot rows of a run. */
  lemma RowsAt(issue: (string, int) -> string, ws: seq<World>, ds: seq<Db>, evs: seq<Event>, i: nat)
    requires IsRun(issue, ds, evs) && Shadows(issue, ws, ds, evs) && i < |evs| && Represents(ws[i], ds[i])
    ensures Represents(ws[i + 1], ds[i + 1]) <==> AloneAt(issue, ds, evs, i)
    ensures LevelAt(ds, i + 1) <==> AloneAt(issue, ds, evs, i)
  {
    assert Took(issue, ds, evs, i) && TrackedAt(ws, ds, i + 1) && LandsAt(issue, ws, ds, evs, i);
    RowsFollow(issue, ws[i], ws[i + 1], ds[i], ds[i + 1], evs[i].req, evs[i].resp, evs[i].fellBack);
  }

  /** While no more than one ballot is superseded at a time, every store is the picture of its world. */
  lemma {:induction false} Pictured(issue: (string, int) -> string, ws: seq<World>, ds: seq<Db>, evs: seq<Event>, i: nat)
    requires IsRun(issue, ds, evs) && Shadows(issue, ws, ds, evs) && ws[0] == EmptyWorld && ds[0] == EmptyDb
    requires i < |ds| && forall k :: 0 <= k < i ==> AloneAt(issue, ds, evs, k)
    ensures Represents(ws[i], ds[i])
  {
    EmptyRepresented();
    for k := 0 to i
      invariant Represents(ws[k], ds[k])
    {
      RowsAt(issue, ws, ds, evs, k);
    }
  }

  /** While there is a ballot row for each nonce, every store is the picture of its world. */
  lemma {:induction false} LevelPictured(issue: (string, int) -> string, ws: seq<World>, ds: seq<Db>, evs: seq<Event>,
                                         i: nat)
    requires IsRun(issue, ds, evs) && Shadows(issue, ws, ds, evs) && ws[0] == EmptyWorld && ds[0] == EmptyDb
    requires i < |ds| && AllLevel(ds)
    ensures Pictures(ws, ds, i)
  {
    StartPictured(ws, ds);
    for k := 0 to i
      invariant Pictures(ws, ds, k)
    {
      LevelNext(issue, ws, ds, evs, k);
    }
  }

  lemma StartPictured(ws: seq<World>, ds: seq<Db>)
    requires |ws| > 0 && |ds| > 0 && ws[0] == EmptyWorld && ds[0] == EmptyDb
    ensures Pictures(ws, ds, 0)
  {
    EmptyRepresented();
  }

  lemma LevelNext(issue: (string, int) -> string, ws: seq<World>, ds: seq<Db>, evs: seq<Event>, i: nat)
    requires IsRun(issue, ds, evs) && Shadows(issue, ws, ds, evs) && i < |evs|
    requires Pictures(ws, ds, i) && AllLevel(ds)
    ensures Pictures(ws, ds, i + 1)
  {
    assert LevelAt(ds, i + 1);
    RowsAt(issue, ws, ds, evs, i);
  }

  lemma LevelAlone(issue: (string, int) -> string, ws: seq<World>, ds: seq<Db>, evs: seq<Event>, i: nat)
    requires IsRun(issue, ds, evs) && Shadows(issue, ws, ds, evs) && i < |evs|
    requires Represents(ws[i], ds[i]) && LevelAt(ds, i + 1)
    ensures AloneAt(issue, ds, evs, i)
  {
    RowsAt(issue, ws, ds, evs, i);
  }

  /** In every run, every store has a ballot row for each nonce if and only if every ballot recorded
      superseded one ballot at most. */
  lemma RowsExactly(issue: (string, int) -> string, ds: seq<Db>, evs: seq<Event>)
    requires IsRun(issue, ds, evs) && AllNumbered(ds, evs) && ds[0] == EmptyDb
    ensures AllAlone(issue, ds, evs) <==> AllLevel(ds)
  {
    var ws := RunTracks(issue, ds, evs);
    if AllAlone(issue, ds, evs) {
      forall i | 0 <= i < |ds|
        ensures LevelAt(ds, i)
      {
        Pictured(issue, ws, ds, evs, i);
        HoldsSize(ws[i].log, ds[i]);
      }
    }
    if AllLevel(ds) {
      forall i | 0 <= i < |evs|
        ensures AloneAt(issue, ds, evs, i)
      {
        LevelPictured(issue, ws, ds, evs, i);
        assert LevelAt(ds, i + 1);
        LevelAlone(issue, ws, ds, evs, i);
      }
    }
  }

  /** With new receipts throughout, receipts stay distinct and no ballot loses its row. */
  lemma {:induction false} ReceiptsDistinct(issue: (string, int) -> string, ws: seq<World>, ds: seq<Db>,
                                            evs: seq<Event>, i: nat)
    requires IsRun(issue, ds, evs) && Shadows(issue, ws, ds, evs) && ws[0] == EmptyWorld && ds[0] == EmptyDb
    requires AllUnshared(issue, ds, evs) && i < |ds|
    ensures HashesUnique(ws[i].log) && forall k :: 0 <= k < i ==> AloneAt(issue, ds, evs, k)
  {
    for k := 0 to i
      invariant HashesUnique(ws[k].log) && forall m :: 0 <= m < k ==> AloneAt(issue, ds, evs, m)
    {
      Pictured(issue, ws, ds, evs, k);
      ReceiptsAt(issue, ws, ds, evs, k);
    }
  }

  lemma ReceiptsAt(issue: (string, int) -> string, ws: seq<World>, ds: seq<Db>, evs: seq<Event>, i: nat)
    requires IsRun(issue, ds, evs) && Shadows(issue, ws, ds, evs) && AllUnshared(issue, ds, evs) && i < |evs|
    requires Represents(ws[i], ds[i]) && HashesUnique(ws[i].log)
    ensures HashesUnique(ws[i + 1].log) && AloneAt(issue, ds, evs, i)
  {
    assert Took(issue, ds, evs, i) && TrackedAt(ws, ds, i + 1) && LandsAt(issue, ws, ds, evs, i);
    assert Unshared(issue, ds[i], ds[i + 1], evs[i].req);
    ReceiptsFollow(issue, ws[i], ws[i + 1], ds[i], ds[i + 1], evs[i].req, evs[i].resp, evs[i].fellBack);
  }

  ghost predicate Pictures(ws: seq<World>, ds: seq<Db>, i: nat)
  {
    i < |ws| && i < |ds| && Represents(ws[i], ds[i])
  }

  /** The worlds of a run, each pictured by the store of its moment. */
  ghost predicate Shows(ws: seq<World>, ds: seq<Db>, evs: seq<Event>)
  {
    IsWorldRun(ws, evs) && |ds| == |ws| && forall i :: 0 <= i < |ds| ==> Pictures(ws, ds, i)
  }

  lemma PicturedCounts(issue: (string, int) -> string, ws: seq<World>, ds: seq<Db>, evs: seq<Event>, i: nat)
    requires IsRun(issue, ds, evs) && Shadows(issue, ws, ds, evs) && i < |evs| && Pictures(ws, ds, i)
    ensures CountsRight(ws[i], evs[i].req, evs[i].resp)
  {
    assert Took(issue, ds, evs, i) && TrackedAt(ws, ds, i);
    ReadsRight(issue, ws[i], ds[i], ds[i + 1], evs[i].req, evs[i].resp, evs[i].fellBack);
  }

  /** Every run from an empty store in which allocated ids were free and no ballot superseded more than
      one is a run of the plain world. */
  lemma {:induction false} RunRefines(issue: (string, int) -> string, ds: seq<Db>, evs: seq<Event>)
    returns (ws: seq<World>)
    requires IsRun(issue, ds, evs) && AllNumbered(ds, evs) && AllAlone(issue, ds, evs) && ds[0] == EmptyDb
    ensures Shadows(issue, ws, ds, evs) && Shows(ws, ds, evs) && ws[0] == EmptyWorld
  {
    ws := RunTracks(issue, ds, evs);
    forall i | 0 <= i < |ds|
      ensures Pictures(ws, ds, i) && Lawful(ws[i])
    {
      Pictured(issue, ws, ds, evs, i);
      assert TrackedAt(ws, ds, i);
    }
    forall i | 0 <= i < |evs|
      ensures CountsRight(ws[i], evs[i].req, evs[i].resp)
    {
      assert Pictures(ws, ds, i);
      PicturedCounts(issue, ws, ds, evs, i);
    }
  }

  /** With new receipts throughout, every run is a run of the plain world and no two ballots of an
      election share a receipt. */
  lemma RunDistinct(issue: (string, int) -> string, ds: seq<Db>, evs: seq<Event>) returns (ws: seq<World>)
    requires IsRun(issue, ds, evs) && AllNumbered(ds, evs) && AllUnshared(issue, ds, evs) && ds[0] == EmptyDb
    ensures Shadows(issue, ws, ds, evs) && Shows(ws, ds, evs) && forall i :: 0 <= i < |ws| ==> HashesUnique(ws[i].log)
  {
    var tracked := RunTracks(issue, ds, evs);
    ReceiptsDistinct(issue, tracked, ds, evs, |evs|);
    ws := RunRefines(issue, ds, evs);
    forall i | 0 <= i < |ws|
      ensures HashesUnique(ws[i].log)
    {
      ReceiptsDistinct(issue, ws, ds, evs, i);
    }
  }

  // ---- nothing goes back

  /** `to` is `from` some steps later: settings are final, states only advance, the log only
      grows, and only with ballots of elections that are not closed yet. */
  ghost predicate Later(from: World, to: World)
  {
    && (forall id :: id in from.elections ==>
          && id in to.elections
          && to.elections[id] == from.elections[id].(state := to.elections[id].state)
          && Stage(from.elections[id].state) <= Stage(to.elections[id].state))
    && from.log <= to.log
    && (forall k :: |from.log| <= k < |to.log| ==>
          to.log[k].election in from.elections ==> Stage(from.elections[to.log[k].election].state) <= 1)
  }

  lemma OpenedLater(w: World, id: string, c: Config)
    requires id !in w.elections
    ensures Later(w, Opened(w, id, c))
  {
  }

  lemma AdvancedLater(w: World, id: string, to: State)
    requires id in w.elections && Stage(to) == Stage(w.elections[id].state) + 1
    ensures Later(w, Advanced(w, id, to))
  {
  }

  lemma VotedLater(w: World, v: Vote)
    requires v.election in w.elections && w.elections[v.election].state == Open
    ensures Later(w, Voted(w, v))
  {
  }

  /** One request moves one election's state by at most one legal edge, and records at most one ballot. */
  lemma {:induction false} StepLater(w: World, w': World, req: Request, resp: Response)
    requires LawfulStep(w, w', req, resp)
    ensures Later(w, w')
    ensures forall id :: id in w.elections ==> Stage(w'.elections[id].state) <= Stage(w.elections[id].state) + 1
    ensures |w'.log| <= |w.log| + 1
    ensures |w'.log| > |w.log| ==> req.Submit? && req.id in w.elections && w.elections[req.id].state == Open
  {
    if w' != w {
      match req {
        case CreateElection(c, desired) => OpenedLater(w, resp.body.id, c);
        case Advance(id, to) => AdvancedLater(w, id, to);
        case Submit(id, b) =>
          var hash :| Verdict(w, id, b) == Success && w' == Voted(w, VoteOf(id, b, hash));
          VotedLater(w, VoteOf(id, b, hash));
        case _ =>
      }
    }
  }

  lemma LaterTrans(a: World, b: World, c: World)
    requires Later(a, b) && Later(b, c)
    ensures Later(a, c)
  {
    forall k | |a.log| <= k < |c.log| && c.log[k].election in a.elections
      ensures Stage(a.elections[c.log[k].election].state) <= 1
    {
      if k < |b.log| {
        assert b.log[k] == c.log[k];
      }
    }
  }

  lemma {:induction false} RunLater(ws: seq<World>, evs: seq<Event>, i: nat, j: nat)
    requires IsLawfulRun(ws, evs) && i <= j < |ws|
    ensures Later(ws[i], ws[j])
  {
    if i < j {
      RunLater(ws, evs, i, j - 1);
      MovedLater(ws, evs, j - 1);
      LaterTrans(ws[i], ws[j - 1], ws[j]);
    }
  }

  lemma MovedLater(ws: seq<World>, evs: seq<Event>, i: nat)
    requires IsLawfulRun(ws, evs) && i < |evs|
    ensures Later(ws[i], ws[i + 1])
  {
    assert Moved(ws, evs, i);
    StepLater(ws[i], ws[i + 1], evs[i].req, evs[i].resp);
  }
}
