/** `MooncakeConnectorScheduler`: which requests are to be fetched from the prefill node, and into which blocks. */
module ConnectorScheduler {

  import opened Common

  /** The transfer parameters of a request; a request without any has neither flag set. */
  datatype Params = Params(doRemotePrefill: bool, doRemoteDecode: bool, remoteBlocks: seq<int>, hasRemoteAddress: bool)

  /** Remote blocks to read and local blocks to fill. */
  datatype Transfer = Transfer(remote: seq<int>, local: seq<int>)

  datatype Connector = Connector(params: map<Id, Params>, needRecv: map<Id, seq<int>>)

  /** Tokens to load from the prefill node, and whether they arrive asynchronously. */
  function NewMatchedTokens(p: Params, promptLen: nat, numComputed: nat): (r: (nat, bool))
    requires p.doRemotePrefill ==> numComputed == 0
    ensures r.1 <==> p.doRemotePrefill && promptLen > 1
    ensures r.1 ==> r.0 == promptLen - 1
    ensures !r.1 ==> r.0 == 0
  {
    var count := if promptLen > 1 then promptLen - 1 else 0;
    if p.doRemotePrefill && count > 0 then (count, true) else (0, false)
  }

  /** The parameters lead to a transfer as soon as there is room for the request. */
  predicate Fetches(p: Params) {
    p.doRemotePrefill && p.remoteBlocks != [] && p.hasRemoteAddress
  }

  /** The state after slots have been allocated for `x`; `blocks` are the local blocks to fill. */
  function AfterAlloc(c: Connector, x: Id, blocks: seq<int>): Connector
    requires x in c.params
  {
    var p := c.params[x];
    if !p.doRemotePrefill then c
    else Connector(c.params[x := p.(doRemotePrefill := false)],
                   if p.remoteBlocks != [] && p.hasRemoteAddress then c.needRecv[x := blocks] else c.needRecv)
  }

  /** On the prefill side, when a request ends: whether its blocks are kept for later, and the parameters with
      which the decode side takes it over. */
  function RequestFinished(p: Params, lengthCapped: bool, blocks: seq<int>): (r: (bool, Option<Params>))
    ensures r.1.Some? <==> p.doRemoteDecode && lengthCapped
    ensures r.1.Some? ==> (r.0 <==> Fetches(r.1.value)) && r.1.value.remoteBlocks == blocks && !r.1.value.doRemoteDecode
    ensures r.0 <==> p.doRemoteDecode && lengthCapped && blocks != []
  {
    if !p.doRemoteDecode || !lengthCapped then (false, None)
    else (|blocks| > 0, Some(Params(true, false, blocks, true)))
  }

  class MooncakeConnectorScheduler {
    var params: map<Id, Params>
    var reqsNeedRecv: map<Id, seq<int>>

    ghost predicate Valid()
      reads this
    {
      reqsNeedRecv.Keys <= params.Keys
    }

    ghost function View(): Connector
      reads this
    {
      Connector(params, reqsNeedRecv)
    }

    method UpdateStateAfterAlloc(x: Id, unhashed: seq<int>, numExternal: nat)
      requires Valid() && x in params
      requires params[x].doRemotePrefill && params[x].remoteBlocks == [] ==> numExternal == 0
      modifies this
      ensures Valid() && View() == AfterAlloc(old(View()), x, if numExternal > 0 then unhashed else [])
      ensures reqsNeedRecv ==
        if old(params[x].doRemotePrefill && params[x].remoteBlocks != [] && params[x].hasRemoteAddress)
        then old(reqsNeedRecv)[x := if numExternal > 0 then unhashed else []] else old(reqsNeedRecv)
      ensures params == old(params)[x := old(params[x]).(doRemotePrefill := false)]
    {
      var p := params[x];
      if p.doRemotePrefill {
        if p.remoteBlocks != [] {
          if p.hasRemoteAddress {
            reqsNeedRecv := reqsNeedRecv[x := if numExternal > 0 then unhashed else []];
          }
        } else {
          assert numExternal == 0;
        }
        params := params[x := p.(doRemotePrefill := false)];
      }
    }

    /** Hands the pending transfers to the workers and forgets them. */
    method BuildConnectorMeta() returns (meta: map<Id, Transfer>)
      requires Valid()
      modifies this`reqsNeedRecv
      ensures Valid() && meta == MetaOf(old(View())) && View() == old(View()).(needRecv := map[])
      ensures meta.Keys == old(reqsNeedRecv).Keys
      ensures forall x :: x in meta ==> meta[x].local == old(reqsNeedRecv)[x] && meta[x].remote == params[x].remoteBlocks
    {
      meta := map x | x in reqsNeedRecv :: Transfer(params[x].remoteBlocks, reqsNeedRecv[x]);
      reqsNeedRecv := map[];
    }
  }

  /** The transfers handed out for the queued requests. */
  function MetaOf(c: Connector): map<Id, Transfer>
    requires c.needRecv.Keys <= c.params.Keys
  {
    map x | x in c.needRecv :: Transfer(c.params[x].remoteBlocks, c.needRecv[x])
  }

  /** Decode side, every transfer it has started, and the prefill side: requests handed over, and those whose blocks
      it keeps. `carried` is what the transfers are about. */
  datatype Sys = Sys(c: Connector, started: multiset<Id>, carried: map<Id, Transfer>, handed: map<Id, Params>, kept: set<Id>)

  datatype Event =
    | Finish(x: Id, p: Params, lengthCapped: bool, blocks: seq<int>)
    | Arrive(x: Id, p: Params)
    | Alloc(x: Id, blocks: seq<int>)
    | Build

  ghost predicate Next(a: Sys, e: Event, b: Sys) {
    match e
    case Finish(x, p, lengthCapped, blocks) =>
      var (delay, handover) := RequestFinished(p, lengthCapped, blocks);
      x !in a.handed && b == a.(handed := if handover.Some? then a.handed[x := handover.value] else a.handed,
                                kept := if delay then a.kept + {x} else a.kept)
    case Arrive(x, p) =>
      x !in a.c.params && b == a.(c := a.c.(params := a.c.params[x := p]))
    case Alloc(x, blocks) =>
      x in a.c.params && b == a.(c := AfterAlloc(a.c, x, blocks))
    case Build =>
      && a.c.needRecv.Keys <= a.c.params.Keys
      && b == a.(c := a.c.(needRecv := map[]), started := a.started + multiset(a.c.needRecv.Keys),
                 carried := a.carried + MetaOf(a.c))
  }

  /** Chances of a transfer a request has had or still has. */
  function Chances(a: Sys, x: Id): nat {
    a.started[x] + (if x in a.c.needRecv then 1 else 0)
    + (if x in a.c.params && a.c.params[x].doRemotePrefill then 1 else 0)
  }

  ghost predicate Inv(a: Sys) {
    && (forall x: Id :: Chances(a, x) <= 1)
    && (forall x: Id :: x !in a.c.params ==> Chances(a, x) == 0)
  }

  lemma NextKeeps(a: Sys, e: Event, b: Sys)
    requires Inv(a) && Next(a, e, b)
    ensures Inv(b)
  {
    forall x: Id
      ensures Chances(b, x) <= 1
      ensures x !in b.c.params ==> Chances(b, x) == 0
    {
      assert Chances(a, x) <= 1;
      if e.Build? {
        assert Chances(b, x) == Chances(a, x);
      }
    }
  }

  ghost predicate IsRun(run: seq<Sys>, events: seq<Event>) {
    && |run| == |events| + 1 && run[0] == Sys(Connector(map[], map[]), multiset{}, map[], map[], {})
    && forall i :: 0 <= i < |events| ==> Next(run[i], events[i], run[i + 1])
  }

  lemma {:induction false} RunKeeps(run: seq<Sys>, events: seq<Event>, i: nat)
    requires IsRun(run, events) && i < |run|
    ensures Inv(run[i])
  {
    if i > 0 {
      RunKeeps(run, events, i - 1);
      NextKeeps(run[i - 1], events[i - 1], run[i]);
    }
  }

  /** However often slots are allocated for a request, at most one transfer of it is ever started. */
  lemma AtMostOneTransfer(run: seq<Sys>, events: seq<Event>, i: nat, x: Id)
    requires IsRun(run, events) && i < |run|
    ensures run[i].started[x] <= 1
    ensures run[i].started[x] == 1 && x in run[i].c.params ==> !run[i].c.params[x].doRemotePrefill
  {
    RunKeeps(run, events, i);
    assert Chances(run[i], x) <= 1;
  }

  /* ----- Blocks kept and transfers coming ----- */

  /** A request that names remote blocks comes from the prefill side, with the parameters handed over, and after that. */
  ghost predicate TakesOver(a: Sys, e: Event) {
    match e
    case Finish(x, _, _, _) => x !in a.c.params
    case Arrive(x, p) => if x in a.handed then p == a.handed[x] else !(p.doRemotePrefill && p.remoteBlocks != [])
    case _ => true
  }

  /** Transfers of `x` started, queued, or still to be queued. */
  function Coming(a: Sys, x: Id): nat {
    a.started[x] + (if x in a.c.needRecv then 1 else 0)
    + (if x in a.c.params then (if Fetches(a.c.params[x]) then 1 else 0)
       else if x in a.handed && Fetches(a.handed[x]) then 1 else 0)
  }

  /** Exactly one transfer per request whose blocks are kept, none for any other. */
  ghost predicate KeptOk(a: Sys) {
    && (forall x: Id :: Coming(a, x) == if x in a.kept then 1 else 0)
    && (forall x: Id :: x !in a.handed ==> x !in a.kept)
  }

  lemma NextKeptOk(a: Sys, e: Event, b: Sys)
    requires KeptOk(a) && Next(a, e, b) && TakesOver(a, e)
    ensures KeptOk(b)
  {
    forall x: Id ensures Coming(b, x) == (if x in b.kept then 1 else 0) && (x !in b.handed ==> x !in b.kept) {
      assert Coming(a, x) == if x in a.kept then 1 else 0;
    }
  }

  ghost predicate InOrder(run: seq<Sys>, events: seq<Event>)
    requires |run| == |events| + 1
  {
    forall j :: 0 <= j < |events| ==> TakesOver(run[j], events[j])
  }

  /** In every run in which requests with remote blocks take over from the prefill side: a request's blocks are kept
      back there exactly when one transfer of them is started, queued or still to come, and there is never a second. */
  lemma {:induction false} KeptExactlyForTransfer(run: seq<Sys>, events: seq<Event>, i: nat)
    requires IsRun(run, events) && i < |run| && InOrder(run, events)
    ensures KeptOk(run[i])
  {
    if i > 0 {
      KeptExactlyForTransfer(run, events, i - 1);
      NextKeptOk(run[i - 1], events[i - 1], run[i]);
    }
  }

  /* ----- What the transfers are about ----- */

  /** Event `j` allocates `local` for the request while it still has its transfer ahead of it. */
  ghost predicate QueuedAt(run: seq<Sys>, events: seq<Event>, j: nat, x: Id, local: seq<int>)
    requires |run| == |events| + 1
  {
    j < |events| && events[j] == Alloc(x, local) && x in run[j].c.params && Fetches(run[j].c.params[x])
  }

  /** Some allocation before state `i` queued `x`, for these blocks. */
  ghost predicate QueuedBefore(run: seq<Sys>, events: seq<Event>, i: nat, x: Id, local: seq<int>)
    requires |run| == |events| + 1
  {
    exists j: nat :: j < i && QueuedAt(run, events, j, x, local)
  }

  /** Everything queued or started is for the blocks of an allocation, and reads the blocks its parameters name. */
  ghost predicate BlocksOk(run: seq<Sys>, events: seq<Event>, i: nat)
    requires |run| == |events| + 1 && i < |run|
  {
    var a := run[i];
    && (forall x :: x in a.c.needRecv ==> x in a.c.params && QueuedBefore(run, events, i, x, a.c.needRecv[x]))
    && (forall x :: x in a.carried ==>
          && x in a.c.params && a.carried[x].remote == a.c.params[x].remoteBlocks
          && QueuedBefore(run, events, i, x, a.carried[x].local))
    && (forall x: Id :: a.started[x] > 0 ==> x in a.carried)
  }

  lemma StillQueued(run: seq<Sys>, events: seq<Event>, i: nat, x: Id, local: seq<int>)
    requires |run| == |events| + 1 && QueuedBefore(run, events, i, x, local)
    ensures QueuedBefore(run, events, i + 1, x, local)
  {
    var j: nat :| j < i && QueuedAt(run, events, j, x, local);
    assert j < i + 1;
  }

  lemma NextNeed(run: seq<Sys>, events: seq<Event>, i: nat, x: Id)
    requires IsRun(run, events) && i < |events| && BlocksOk(run, events, i) && x in run[i + 1].c.needRecv
    ensures x in run[i + 1].c.params && QueuedBefore(run, events, i + 1, x, run[i + 1].c.needRecv[x])
  {
    var a, b := run[i], run[i + 1];
    assert Next(a, events[i], b);
    if x in a.c.needRecv && b.c.needRecv[x] == a.c.needRecv[x] {
      StillQueued(run, events, i, x, a.c.needRecv[x]);
    } else {
      assert QueuedAt(run, events, i, x, b.c.needRecv[x]);
    }
  }

  lemma NextCarried(run: seq<Sys>, events: seq<Event>, i: nat, x: Id)
    requires IsRun(run, events) && i < |events| && BlocksOk(run, events, i) && x in run[i + 1].carried
    ensures var b := run[i + 1];
            && x in b.c.params && b.carried[x].remote == b.c.params[x].remoteBlocks
            && QueuedBefore(run, events, i + 1, x, b.carried[x].local)
  {
    var a, b := run[i], run[i + 1];
    assert Next(a, events[i], b);
    if x in a.carried && b.carried[x] == a.carried[x] {
      StillQueued(run, events, i, x, a.carried[x].local);
    } else {
      StillQueued(run, events, i, x, a.c.needRecv[x]);
    }
  }

  lemma NextStarted(run: seq<Sys>, events: seq<Event>, i: nat, x: Id)
    requires IsRun(run, events) && i < |events| && BlocksOk(run, events, i) && run[i + 1].started[x] > 0
    ensures x in run[i + 1].carried
  {
    assert Next(run[i], events[i], run[i + 1]);
  }

  lemma NextBlocks(run: seq<Sys>, events: seq<Event>, i: nat)
    requires IsRun(run, events) && i < |events| && BlocksOk(run, events, i)
    ensures BlocksOk(run, events, i + 1)
  {
    var b := run[i + 1];
    forall x | x in b.c.needRecv ensures x in b.c.params && QueuedBefore(run, events, i + 1, x, b.c.needRecv[x]) {
      NextNeed(run, events, i, x);
    }
    forall x | x in b.carried
      ensures x in b.c.params && b.carried[x].remote == b.c.params[x].remoteBlocks
      ensures QueuedBefore(run, events, i + 1, x, b.carried[x].local)
    {
      NextCarried(run, events, i, x);
    }
    forall x: Id | b.started[x] > 0 ensures x in b.carried {
      NextStarted(run, events, i, x);
    }
  }

  lemma {:induction false} RunBlocks(run: seq<Sys>, events: seq<Event>, i: nat)
    requires IsRun(run, events) && i < |run|
    ensures BlocksOk(run, events, i)
  {
    if i > 0 {
      RunBlocks(run, events, i - 1);
      NextBlocks(run, events, i - 1);
    }
  }

  /** Once a request has had its slots, it never looks for a transfer again. */
  lemma {:induction false} StaysDone(run: seq<Sys>, events: seq<Event>, i: nat, j: nat, x: Id)
    requires IsRun(run, events) && i <= j < |run|
    requires x in run[i].c.params && !run[i].c.params[x].doRemotePrefill
    ensures x in run[j].c.params && !run[j].c.params[x].doRemotePrefill
    decreases j
  {
    if i < j {
      StaysDone(run, events, i, j - 1, x);
      assert Next(run[j - 1], events[j - 1], run[j]);
    }
  }

  lemma OneQueueing(run: seq<Sys>, events: seq<Event>, i: nat, j: nat, x: Id, p: seq<int>, q: seq<int>)
    requires IsRun(run, events) && i < j && QueuedAt(run, events, i, x, p)
    ensures !QueuedAt(run, events, j, x, q)
  {
    assert Next(run[i], events[i], run[i + 1]);
    if j < |events| {
      StaysDone(run, events, i + 1, j, x);
    }
  }

  /** In every run, a started transfer fills exactly the blocks of the one allocation that queued it. */
  lemma TransferFillsItsBlocks(run: seq<Sys>, events: seq<Event>, i: nat, x: Id) returns (j: nat)
    requires IsRun(run, events) && i < |run| && run[i].started[x] > 0
    ensures x in run[i].carried && j < i && QueuedAt(run, events, j, x, run[i].carried[x].local)
    ensures forall k: nat, local :: QueuedAt(run, events, k, x, local) ==> k == j && local == run[i].carried[x].local
  {
    RunBlocks(run, events, i);
    j :| j < i && QueuedAt(run, events, j, x, run[i].carried[x].local);
    forall k: nat, local | QueuedAt(run, events, k, x, local) ensures k == j {
      if k < j {
        OneQueueing(run, events, k, j, x, local, run[i].carried[x].local);
      } else if j < k {
        OneQueueing(run, events, j, k, x, run[i].carried[x].local, local);
      }
    }
  }

  /** Handed-over parameters name the blocks with which the request ended, and a request that takes over keeps them. */
  ghost predicate HandedOk(run: seq<Sys>, events: seq<Event>, i: nat)
    requires |run| == |events| + 1 && i < |run|
  {
    var a := run[i];
    && (forall x :: x in a.handed ==> EndedBefore(run, events, i, x, a.handed[x].remoteBlocks))
    && (forall x :: x in a.c.params && x in a.handed ==> a.c.params[x].remoteBlocks == a.handed[x].remoteBlocks)
    && (forall x :: x in a.c.needRecv || x in a.carried ==> x in a.handed && x in a.c.params)
    && (forall x :: x in a.c.params && Fetches(a.c.params[x]) ==> x in a.handed)
  }

  ghost predicate EndedAt(events: seq<Event>, j: nat, x: Id, blocks: seq<int>) {
    j < |events| && events[j].Finish? && events[j].x == x && events[j].blocks == blocks && events[j].lengthCapped
  }

  ghost predicate EndedBefore(run: seq<Sys>, events: seq<Event>, i: nat, x: Id, blocks: seq<int>) {
    exists j: nat :: j < i && EndedAt(events, j, x, blocks)
  }

  lemma StillEnded(run: seq<Sys>, events: seq<Event>, i: nat, x: Id, blocks: seq<int>)
    requires EndedBefore(run, events, i, x, blocks)
    ensures EndedBefore(run, events, i + 1, x, blocks)
  {
    var j: nat :| j < i && EndedAt(events, j, x, blocks);
    assert j < i + 1;
  }

  lemma NextHanded(run: seq<Sys>, events: seq<Event>, i: nat)
    requires IsRun(run, events) && i < |events| && TakesOver(run[i], events[i]) && HandedOk(run, events, i)
    ensures HandedOk(run, events, i + 1)
  {
    var a, e, b := run[i], events[i], run[i + 1];
    assert Next(a, e, b);
    forall x | x in b.handed ensures EndedBefore(run, events, i + 1, x, b.handed[x].remoteBlocks) {
      if x in a.handed {
        StillEnded(run, events, i, x, b.handed[x].remoteBlocks);
      } else {
        assert EndedAt(events, i, x, b.handed[x].remoteBlocks);
      }
    }
  }

  lemma {:induction false} RunHanded(run: seq<Sys>, events: seq<Event>, i: nat)
    requires IsRun(run, events) && InOrder(run, events) && i < |run|
    ensures HandedOk(run, events, i)
  {
    if i > 0 {
      RunHanded(run, events, i - 1);
      NextHanded(run, events, i - 1);
    }
  }

  /** In every run in which requests take over from the prefill side, a started transfer reads exactly the blocks with
      which the request ended there. */
  lemma TransferReadsKeptBlocks(run: seq<Sys>, events: seq<Event>, i: nat, x: Id) returns (j: nat)
    requires IsRun(run, events) && InOrder(run, events) && i < |run| && run[i].started[x] > 0
    ensures x in run[i].carried && x in run[i].kept && j < i && EndedAt(events, j, x, run[i].carried[x].remote)
  {
    RunBlocks(run, events, i);
    RunHanded(run, events, i);
    KeptExactlyForTransfer(run, events, i);
    assert Coming(run[i], x) == if x in run[i].kept then 1 else 0;
    j :| j < i && EndedAt(events, j, x, run[i].carried[x].remote);
  }
}
