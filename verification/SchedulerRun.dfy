/** Whole runs of the scheduler: any interleaving of arrivals, scheduling steps, model outputs and aborts. */
module SchedulerRun {
  import opened Common
  import opened SchedulerState
  import opened Scheduler

  /** The scheduler, the outputs whose model step has not been taken in yet, and every id ever used. */
  datatype Sys = Sys(s: State, outs: seq<Output>, seen: set<Id>)

  datatype Event =
    | Arrive(x: Id, r: Request)
    | Step(out: Output, t: Trail)
    | TakeIn(k: nat, results: map<Id, Option<Request>>)
    | Abort(ids: set<Id>)

  ghost predicate Next(cfg: Config, a: Sys, e: Event, b: Sys) {
    match e
    case Arrive(x, r) =>
      x !in a.seen && WaitingOk(r) && b == Sys(AfterAdd(a.s, x, r), a.outs, a.seen + {x})
    case Step(out, t) =>
      ScheduleStep(cfg, a.s, b.s, out, t) && b.outs == a.outs + [out] && b.seen == a.seen
    case TakeIn(k, results) =>
      && k < |a.outs| && ResultsOk(a.s, a.outs[k], results)
      && b == Sys(AfterUpdate(a.s, a.outs[k], results), a.outs[..k] + a.outs[k + 1..], a.seen)
    case Abort(ids) =>
      b == Sys(AfterFinish(a.s, ids), a.outs, a.seen)
  }

  /** Some outstanding output schedules `x`. */
  ghost predicate InFlight(outs: seq<Output>, x: Id) {
    exists k :: 0 <= k < |outs| && x in outs[k].numScheduled
  }

  /** An output holds prefills or decodes, never both, and gives every request it names some tokens. */
  ghost predicate OutputOk(out: Output) {
    && (out.runningReqs == [] || (out.newReqs == [] && out.resumedReqs == []))
    && out.numScheduled.Keys == Ids(out.newReqs) + Ids(out.resumedReqs) + Ids(out.runningReqs)
    && (forall x :: x in out.numScheduled ==> out.numScheduled[x] != 0)
  }

  ghost predicate OutsOk(outs: seq<Output>) {
    && (forall k :: 0 <= k < |outs| ==> OutputOk(outs[k]))
    && (forall k, l :: 0 <= k < l < |outs| ==> outs[k].numScheduled.Keys !! outs[l].numScheduled.Keys)
  }

  /** The in-flight set is exactly the running requests that some outstanding output schedules. */
  ghost predicate FlightOk(s: State, outs: seq<Output>) {
    && (forall x :: x in s.scheduled <==> x in s.running && InFlight(outs, x))
    && (forall x :: x in s.waiting ==> !InFlight(outs, x))
  }

  ghost predicate Known(a: Sys) {
    && a.s.requests.Keys <= a.seen
    && (forall k :: 0 <= k < |a.outs| ==> a.outs[k].numScheduled.Keys <= a.seen)
  }

  ghost predicate Inv(cfg: Config, a: Sys) {
    Ready(cfg, a.s) && OutsOk(a.outs) && FlightOk(a.s, a.outs) && Known(a)
  }

  /* ----- Queues without duplicates ----- */

  lemma {:induction false} DistinctCounts(s: seq<Id>)
    ensures Distinct(s) <==> forall x :: multiset(s)[x] <= 1
  {
    if s != [] {
      var n := |s| - 1;
      DistinctCounts(s[..n]);
      assert s == s[..n] + [s[n]];
      if Distinct(s) {
        assert s[n] !in s[..n];
        assert multiset(s[..n])[s[n]] == 0;
      } else if forall x :: multiset(s)[x] <= 1 {
        assert forall x :: multiset(s[..n])[x] <= multiset(s)[x];
        assert multiset(s)[s[n]] == multiset(s[..n])[s[n]] + 1;
        assert s[n] !in multiset(s[..n]);
        assert s[n] !in s[..n];
      }
    }
  }

  /** Rearranging ids and dropping some leaves no duplicates. */
  lemma DistinctSubbag(a: seq<Id>, b: seq<Id>)
    requires Distinct(a) && multiset(b) <= multiset(a)
    ensures Distinct(b)
  {
    DistinctCounts(a);
    DistinctCounts(b);
    assert forall x :: multiset(b)[x] <= multiset(a)[x];
  }

  lemma {:induction false} WithoutBag(s: seq<Id>, gone: set<Id>)
    ensures multiset(Without(s, gone)) <= multiset(s) && |Without(s, gone)| <= |s|
  {
    if s != [] {
      var n := |s| - 1;
      WithoutBag(s[..n], gone);
      assert s == s[..n] + [s[n]];
    }
  }

  lemma WithoutFacts(s: seq<Id>, gone: set<Id>)
    ensures multiset(Without(s, gone)) <= multiset(s)
    ensures |Without(s, gone)| <= |s|
    ensures forall x :: x in Without(s, gone) <==> x in s && x !in gone
  {
    WithoutBag(s, gone);
    WithoutAt(s, gone);
  }

  /* ----- Arrivals, aborts and model outputs keep the invariant ----- */

  lemma ArriveKeeps(cfg: Config, a: Sys, x: Id, r: Request)
    requires Inv(cfg, a) && x !in a.seen && WaitingOk(r)
    ensures Inv(cfg, Sys(AfterAdd(a.s, x, r), a.outs, a.seen + {x}))
  {
    var s := AfterAdd(a.s, x, r);
    assert s.running + s.waiting == (a.s.running + a.s.waiting) + [x];
  }

  lemma AbortKeeps(cfg: Config, a: Sys, ids: set<Id>)
    requires Inv(cfg, a)
    ensures Inv(cfg, Sys(AfterFinish(a.s, ids), a.outs, a.seen))
  {
    AbortReady(cfg, a.s, ids);
    WithoutFacts(a.s.running, ids);
    WithoutFacts(a.s.waiting, ids);
  }

  lemma AbortReady(cfg: Config, s0: State, ids: set<Id>)
    requires Ready(cfg, s0)
    ensures Ready(cfg, AfterFinish(s0, ids))
  {
    var s := AfterFinish(s0, ids);
    WithoutFacts(s0.running, ids);
    WithoutFacts(s0.waiting, ids);
    DistinctSubbag(s0.running + s0.waiting, s.running + s.waiting);
    forall j | 0 <= j < |s.waiting| ensures s.waiting[j] in s.requests && WaitingOk(s.requests[s.waiting[j]]) {
      assert s.waiting[j] in Without(s0.waiting, ids);
    }
    forall j | 0 <= j < |s.running|
      ensures s.running[j] in s.requests && RunningOk(s.requests[s.running[j]])
      ensures s.running[j] !in s.scheduled ==> OneAhead(s.requests[s.running[j]])
    {
      assert s.running[j] in Without(s0.running, ids);
    }
  }

  /** No request is in two outstanding outputs. */
  lemma OneOutput(outs: seq<Output>, j: nat, k: nat, x: Id)
    requires OutsOk(outs) && j < |outs| && k < |outs| && j != k
    ensures x in outs[j].numScheduled ==> x !in outs[k].numScheduled
  {
    if j < k {
      assert outs[j].numScheduled.Keys !! outs[k].numScheduled.Keys;
    } else {
      assert outs[k].numScheduled.Keys !! outs[j].numScheduled.Keys;
    }
  }

  lemma OtherOutput(outs: seq<Output>, k: nat, j: nat, x: Id)
    requires k < |outs| && j < |outs| && j != k && x in outs[j].numScheduled
    ensures InFlight(outs[..k] + outs[k + 1..], x)
  {
    var rest := outs[..k] + outs[k + 1..];
    assert rest[if j < k then j else j - 1] == outs[j];
  }

  lemma StillOut(outs: seq<Output>, k: nat, x: Id) returns (j: nat)
    requires k < |outs| && InFlight(outs[..k] + outs[k + 1..], x)
    ensures j < |outs| && j != k && x in outs[j].numScheduled
  {
    var rest := outs[..k] + outs[k + 1..];
    var i :| 0 <= i < |rest| && x in rest[i].numScheduled;
    j := if i < k then i else i + 1;
    assert rest[i] == outs[j];
  }

  /** Taking in one output lands exactly the requests it scheduled. */
  lemma LandOutput(outs: seq<Output>, k: nat, x: Id)
    requires OutsOk(outs) && k < |outs|
    ensures InFlight(outs[..k] + outs[k + 1..], x) <==> InFlight(outs, x) && x !in outs[k].numScheduled
  {
    if InFlight(outs[..k] + outs[k + 1..], x) {
      var j := StillOut(outs, k, x);
      OneOutput(outs, j, k, x);
    }
    if InFlight(outs, x) && x !in outs[k].numScheduled {
      var j :| 0 <= j < |outs| && x in outs[j].numScheduled;
      OtherOutput(outs, k, j, x);
    }
  }

  lemma OutsWithout(outs: seq<Output>, k: nat)
    requires OutsOk(outs) && k < |outs|
    ensures OutsOk(outs[..k] + outs[k + 1..])
  {
    var rest := outs[..k] + outs[k + 1..];
    forall i | 0 <= i < |rest| ensures OutputOk(rest[i]) {
      assert rest[i] == outs[if i < k then i else i + 1];
    }
    forall i, j | 0 <= i < j < |rest| ensures rest[i].numScheduled.Keys !! rest[j].numScheduled.Keys {
      assert rest[i] == outs[if i < k then i else i + 1] && rest[j] == outs[if j < k then j else j + 1];
    }
  }

  lemma TakeInReady(cfg: Config, a: Sys, k: nat, results: map<Id, Option<Request>>)
    requires Inv(cfg, a) && k < |a.outs| && ResultsOk(a.s, a.outs[k], results)
    ensures Ready(cfg, AfterUpdate(a.s, a.outs[k], results))
  {
    var out, s := a.outs[k], AfterUpdate(a.s, a.outs[k], results);
    var ended := Ended(a.s, out, results);
    WithoutFacts(a.s.running, ended);
    DistinctSubbag(a.s.running + a.s.waiting, s.running + s.waiting);
    forall j | 0 <= j < |s.waiting| ensures s.waiting[j] in s.requests && WaitingOk(s.requests[s.waiting[j]]) {
      NotRunning(cfg, a.s, j);
    }
    forall j | 0 <= j < |s.running|
      ensures s.running[j] in s.requests && RunningOk(s.requests[s.running[j]])
      ensures s.running[j] !in s.scheduled ==> OneAhead(s.requests[s.running[j]])
    {
      assert s.running[j] in Without(a.s.running, ended);
    }
  }

  lemma NotRunning(cfg: Config, s: State, j: nat)
    requires Ready(cfg, s) && j < |s.waiting|
    ensures s.waiting[j] !in s.running
  {
    forall i | 0 <= i < |s.running| ensures s.running[i] != s.waiting[j] {
      NotQueued(cfg, s, i);
    }
  }

  lemma TakeInFlight(cfg: Config, a: Sys, k: nat, results: map<Id, Option<Request>>)
    requires Inv(cfg, a) && k < |a.outs| && ResultsOk(a.s, a.outs[k], results)
    ensures FlightOk(AfterUpdate(a.s, a.outs[k], results), a.outs[..k] + a.outs[k + 1..])
  {
    var out, s, rest := a.outs[k], AfterUpdate(a.s, a.outs[k], results), a.outs[..k] + a.outs[k + 1..];
    WithoutFacts(a.s.running, Ended(a.s, out, results));
    forall x ensures x in s.scheduled <==> x in s.running && InFlight(rest, x) {
      LandOutput(a.outs, k, x);
    }
    forall x | x in s.waiting ensures !InFlight(rest, x) {
      LandOutput(a.outs, k, x);
    }
  }

  lemma TakeInKeeps(cfg: Config, a: Sys, k: nat, results: map<Id, Option<Request>>)
    requires Inv(cfg, a) && k < |a.outs| && ResultsOk(a.s, a.outs[k], results)
    ensures Inv(cfg, Sys(AfterUpdate(a.s, a.outs[k], results), a.outs[..k] + a.outs[k + 1..], a.seen))
  {
    TakeInReady(cfg, a, k, results);
    TakeInFlight(cfg, a, k, results);
    OutsWithout(a.outs, k);
  }

  /* ----- Scheduling steps keep the invariant ----- */

  /** A request scheduled by a step was not in flight before it. */
  lemma StepKeysNotInFlight(cfg: Config, a: Sys, s': State, out: Output, t: Trail, x: Id)
    requires Inv(cfg, a) && ScheduleStep(cfg, a.s, s', out, t) && x in out.numScheduled
    ensures !InFlight(a.outs, x) && x in a.s.requests
  {
    if t.mid.scheduled != {} {
      PickMembers(a.s.waiting, t.verdicts, ADMITTED, x);
    } else {
      NothingAdmitted(a.s, t.mid, t.pass, t.verdicts);
      PickMembers(a.s.running, t.decodes, {New}, x);
    }
  }

  lemma {:induction false} PickUnion(queue: seq<Id>, v: seq<Verdict>)
    requires |v| <= |queue|
    ensures Ids(Pick(queue, v, ADMITTED)) == Ids(Pick(queue, v, {New})) + Ids(Pick(queue, v, {Resumed}))
  {
    forall x
      ensures x in Pick(queue, v, ADMITTED) <==> x in Pick(queue, v, {New}) || x in Pick(queue, v, {Resumed})
    {
      PickMembers(queue, v, ADMITTED, x);
      PickMembers(queue, v, {New}, x);
      PickMembers(queue, v, {Resumed}, x);
    }
  }

  lemma PrefillOutputOk(cfg: Config, s: State, out: Output, t: Trail)
    requires PrefillDone(cfg, s, t.mid, t.pass, t.verdicts)
    requires out.newReqs == t.pass.newReqs && out.resumedReqs == t.pass.resumedReqs && out.runningReqs == []
    requires out.numScheduled == t.pass.tokens
    ensures OutputOk(out)
  {
    PickUnion(s.waiting, t.verdicts);
    forall x | x in out.numScheduled ensures out.numScheduled[x] != 0 {
      PickMembers(s.waiting, t.verdicts, ADMITTED, x);
    }
  }

  lemma DecodeOutputOk(cfg: Config, out: Output, t: Trail)
    requires DecodeInv(cfg, t.mid, t.end, t.decodes, out.numScheduled, t.budget, t.loras)
    requires out.newReqs == [] && out.resumedReqs == [] && out.runningReqs == Pick(t.mid.running, t.decodes, {New})
    ensures OutputOk(out)
  {
    forall x | x in out.numScheduled ensures out.numScheduled[x] != 0 {
      PickMembers(t.mid.running, t.decodes, {New}, x);
    }
  }

  /** Prefills and decodes never share an output. */
  lemma StepOutputOk(cfg: Config, s: State, s': State, out: Output, t: Trail)
    requires ScheduleStep(cfg, s, s', out, t)
    ensures OutputOk(out)
  {
    if t.mid.scheduled != {} {
      PrefillOutputOk(cfg, s, out, t);
    } else {
      NothingAdmitted(s, t.mid, t.pass, t.verdicts);
      DecodeOutputOk(cfg, out, t);
    }
  }

  lemma AppendOutput(outs: seq<Output>, out: Output)
    requires OutsOk(outs) && OutputOk(out) && forall x :: x in out.numScheduled ==> !InFlight(outs, x)
    ensures OutsOk(outs + [out])
    ensures forall x :: InFlight(outs + [out], x) <==> InFlight(outs, x) || x in out.numScheduled
  {
    var all := outs + [out];
    forall k | 0 <= k < |outs| ensures outs[k].numScheduled.Keys !! out.numScheduled.Keys {
      forall x | x in outs[k].numScheduled ensures x !in out.numScheduled {
        assert InFlight(outs, x);
      }
    }
    forall x ensures InFlight(all, x) <==> InFlight(outs, x) || x in out.numScheduled {
      if x in out.numScheduled { assert x in all[|outs|].numScheduled; }
      if InFlight(outs, x) {
        var k :| 0 <= k < |outs| && x in outs[k].numScheduled;
        assert x in all[k].numScheduled;
      }
    }
  }

  lemma StepOuts(cfg: Config, a: Sys, s': State, out: Output, t: Trail)
    requires Inv(cfg, a) && ScheduleStep(cfg, a.s, s', out, t)
    ensures OutsOk(a.outs + [out]) && out.numScheduled.Keys <= a.seen
    ensures forall x :: InFlight(a.outs + [out], x) <==> InFlight(a.outs, x) || x in out.numScheduled
  {
    StepOutputOk(cfg, a.s, s', out, t);
    forall x | x in out.numScheduled ensures !InFlight(a.outs, x) && x in a.seen {
      StepKeysNotInFlight(cfg, a, s', out, t, x);
    }
    AppendOutput(a.outs, out);
  }

  /* After a prefill-only step. */

  /** Requests only move between the queues, or leave them when ignored. */
  lemma PrefillBag(running: seq<Id>, queue: seq<Id>, v: seq<Verdict>, running': seq<Id>, queue': seq<Id>)
    requires |v| <= |queue|
    requires running' == running + Pick(queue, v, ADMITTED)
    requires queue' == Pick(queue, v, {Skip}) + queue[|v|..]
    ensures multiset(running' + queue') + multiset(Pick(queue, v, {Ignore})) == multiset(running + queue)
  {
    PickPartition(queue, v);
    assert queue == queue[..|v|] + queue[|v|..];
  }

  lemma PrefillDistinct(s: State, mid: State, p: Pass, v: seq<Verdict>)
    requires Distinct(s.running + s.waiting) && PrefillOrder(s, mid, p, v)
    ensures Distinct(mid.running + mid.waiting)
  {
    PrefillBag(s.running, s.waiting, v, mid.running, mid.waiting);
    DistinctSubbag(s.running + s.waiting, mid.running + mid.waiting);
  }

  /** Requests the pass left in the queue can still be scheduled later. */
  lemma PrefillWaiting(cfg: Config, s: State, mid: State, p: Pass, v: seq<Verdict>, x: Id)
    requires Ready(cfg, s) && PrefillDone(cfg, s, mid, p, v) && x in mid.waiting
    ensures x in s.waiting && x !in p.tokens
    ensures x in mid.requests && WaitingOk(mid.requests[x])
  {
    PrefillStart(cfg, s);
    var j := StillWaiting(s, mid, p, v, x);
    PickMembers(s.waiting, v, ADMITTED, x);
  }

  /** Where a request left in the queue was before the pass: skipped, or not reached. */
  lemma StillWaiting(s: State, mid: State, p: Pass, v: seq<Verdict>, x: Id) returns (j: nat)
    requires PrefillOrder(s, mid, p, v) && x in mid.waiting
    ensures j < |s.waiting| && s.waiting[j] == x && |v| <= |s.waiting| && (j < |v| ==> v[j] == Skip)
  {
    PickMembers(s.waiting, v, {Skip}, x);
    if x in Pick(s.waiting, v, {Skip}) {
      j :| 0 <= j < |v| && s.waiting[j] == x && v[j] in {Skip};
    } else {
      var i :| 0 <= i < |s.waiting| - |v| && s.waiting[|v|..][i] == x;
      j := |v| + i;
    }
  }

  /** Running requests after the pass: old ones untouched, admitted ones in flight. */
  lemma PrefillRunning(cfg: Config, s: State, mid: State, p: Pass, v: seq<Verdict>, x: Id)
    requires Ready(cfg, s) && PrefillDone(cfg, s, mid, p, v) && x in mid.running
    ensures x in mid.requests && RunningOk(mid.requests[x])
    ensures x in p.tokens <==> x !in s.running
    ensures x in s.running ==> mid.requests[x] == s.requests[x]
    ensures x !in s.running ==> x in s.waiting
  {
    PickMembers(s.waiting, v, ADMITTED, x);
    if x in s.running {
      var j :| 0 <= j < |s.running| && s.running[j] == x;
      NotQueued(cfg, s, j);
    }
  }

  lemma MidReady(cfg: Config, s: State, mid: State, p: Pass, v: seq<Verdict>)
    requires Ready(cfg, s) && PrefillDone(cfg, s, mid, p, v)
    ensures Ready(cfg, mid)
  {
    PrefillDistinct(s, mid, p, v);
    forall j | 0 <= j < |mid.waiting|
      ensures mid.waiting[j] in mid.requests && WaitingOk(mid.requests[mid.waiting[j]])
    {
      PrefillWaiting(cfg, s, mid, p, v, mid.waiting[j]);
    }
    forall j | 0 <= j < |mid.running|
      ensures mid.running[j] in mid.requests && RunningOk(mid.requests[mid.running[j]])
      ensures mid.running[j] !in mid.scheduled ==> OneAhead(mid.requests[mid.running[j]])
    {
      PrefillRunning(cfg, s, mid, p, v, mid.running[j]);
    }
  }

  /** Counting scheduled tokens as computed concerns requests in flight only. */
  lemma FinalizeReady(cfg: Config, s: State, tokens: map<Id, int>)
    requires Ready(cfg, s) && tokens.Keys <= s.scheduled && forall x :: x in s.waiting ==> x !in tokens
    ensures Ready(cfg, Finalize(s, tokens))
  {
  }

  lemma MidFlight(cfg: Config, a: Sys, mid: State, p: Pass, v: seq<Verdict>, x: Id)
    requires Inv(cfg, a) && PrefillDone(cfg, a.s, mid, p, v)
    ensures x in mid.scheduled <==> x in mid.running && (InFlight(a.outs, x) || x in p.tokens)
    ensures x in mid.waiting ==> !InFlight(a.outs, x) && x !in p.tokens
    ensures x in p.tokens ==> x in mid.scheduled
  {
    if x in mid.waiting { PrefillWaiting(cfg, a.s, mid, p, v, x); }
    if x in mid.running { PrefillRunning(cfg, a.s, mid, p, v, x); }
  }

  /* After the decode pass. */

  /** Under any number of preemptions, `running` followed by `waiting` stays the same sequence. */
  lemma PreemptionKeepsOrder(mid: State, end: State)
    requires DecodeQueues(mid, end)
    ensures end.running + end.waiting == mid.running + mid.waiting
  {
    assert mid.running == mid.running[..|end.running|] + mid.running[|end.running|..];
  }

  lemma EndQueues(mid: State, end: State, x: Id)
    requires DecodeQueues(mid, end) && Distinct(mid.running + mid.waiting)
    ensures Distinct(end.running + end.waiting)
    ensures x in end.running ==> x in mid.running && x !in mid.running[|end.running|..]
    ensures x in end.waiting <==> x in mid.running[|end.running|..] || x in mid.waiting
  {
    PreemptionKeepsOrder(mid, end);
    if x in end.running {
      var i :| 0 <= i < |end.running| && end.running[i] == x;
      forall j | |end.running| <= j < |mid.running| ensures mid.running[j] != x {
        assert (mid.running + mid.waiting)[i] != (mid.running + mid.waiting)[j];
      }
    }
  }

  lemma EndReady(cfg: Config, mid: State, end: State, d: seq<Verdict>, tokens: map<Id, int>, left: int, loras: set<nat>)
    requires Ready(cfg, mid) && mid.scheduled == {}
    requires DecodeInv(cfg, mid, end, d, tokens, left, loras)
    ensures Ready(cfg, end)
  {
    forall j | 0 <= j < |end.waiting|
      ensures end.waiting[j] in end.requests && WaitingOk(end.requests[end.waiting[j]])
    {
      EndQueues(mid, end, end.waiting[j]);
      NotBoth(cfg, mid, end.waiting[j]);
    }
    forall j | 0 <= j < |end.running|
      ensures end.running[j] in end.requests && RunningOk(end.requests[end.running[j]])
      ensures OneAhead(end.requests[end.running[j]])
    {
      EndQueues(mid, end, end.running[j]);
    }
    EndQueues(mid, end, 0);
  }

  lemma NotBoth(cfg: Config, s: State, x: Id)
    requires Ready(cfg, s)
    ensures x in s.running ==> x !in s.waiting
  {
    if x in s.running {
      var j :| 0 <= j < |s.running| && s.running[j] == x;
      NotQueued(cfg, s, j);
    }
  }

  lemma EndFlight(cfg: Config, mid: State, end: State, d: seq<Verdict>, tokens: map<Id, int>, left: int, loras: set<nat>, x: Id)
    requires Ready(cfg, mid) && DecodeInv(cfg, mid, end, d, tokens, left, loras)
    ensures x in end.scheduled <==> x in tokens
    ensures x in tokens ==> x in end.running
    ensures x in end.waiting ==> x !in tokens
  {
    PickMembers(mid.running, d, {New}, x);
    EndQueues(mid, end, x);
    NotBoth(cfg, mid, x);
  }

  lemma StepPrefillKeeps(cfg: Config, a: Sys, b: Sys, out: Output, t: Trail)
    requires Inv(cfg, a) && ScheduleStep(cfg, a.s, b.s, out, t) && t.mid.scheduled != {}
    requires b.outs == a.outs + [out] && b.seen == a.seen
    ensures Ready(cfg, b.s) && FlightOk(b.s, b.outs)
  {
    MidReady(cfg, a.s, t.mid, t.pass, t.verdicts);
    StepOuts(cfg, a, b.s, out, t);
    forall x
      ensures x in t.mid.scheduled <==> x in t.mid.running && InFlight(b.outs, x)
      ensures x in t.mid.waiting ==> !InFlight(b.outs, x) && x !in t.pass.tokens
      ensures x in t.pass.tokens ==> x in t.mid.scheduled
    {
      MidFlight(cfg, a, t.mid, t.pass, t.verdicts, x);
    }
    FinalizeReady(cfg, t.mid, out.numScheduled);
  }

  lemma StepDecodeKeeps(cfg: Config, a: Sys, b: Sys, out: Output, t: Trail)
    requires Inv(cfg, a) && ScheduleStep(cfg, a.s, b.s, out, t) && t.mid.scheduled == {}
    requires b.outs == a.outs + [out] && b.seen == a.seen
    ensures Ready(cfg, b.s) && FlightOk(b.s, b.outs)
  {
    MidReady(cfg, a.s, t.mid, t.pass, t.verdicts);
    EndReady(cfg, t.mid, t.end, t.decodes, out.numScheduled, t.budget, t.loras);
    StepOuts(cfg, a, b.s, out, t);
    forall x
      ensures x in t.end.scheduled <==> x in t.end.running && InFlight(b.outs, x)
      ensures x in t.end.waiting ==> !InFlight(b.outs, x) && x !in out.numScheduled
      ensures x in out.numScheduled ==> x in t.end.scheduled
    {
      EndFlight(cfg, t.mid, t.end, t.decodes, out.numScheduled, t.budget, t.loras, x);
      DecodeFlight(cfg, a, t, x);
    }
    FinalizeReady(cfg, t.end, out.numScheduled);
  }

  /** When the decode pass runs, no queued or running request is in flight. */
  lemma DecodeFlight(cfg: Config, a: Sys, t: Trail, x: Id)
    requires Inv(cfg, a) && PrefillDone(cfg, a.s, t.mid, t.pass, t.verdicts) && t.mid.scheduled == {}
    requires DecodeQueues(t.mid, t.end)
    ensures x in t.end.running || x in t.end.waiting ==> !InFlight(a.outs, x)
  {
    MidReady(cfg, a.s, t.mid, t.pass, t.verdicts);
    MidFlight(cfg, a, t.mid, t.pass, t.verdicts, x);
    EndQueues(t.mid, t.end, x);
  }

  lemma StepKnown(cfg: Config, a: Sys, b: Sys, out: Output, t: Trail)
    requires Known(a) && ScheduleStep(cfg, a.s, b.s, out, t)
    requires b.outs == a.outs + [out] && b.seen == a.seen && out.numScheduled.Keys <= a.seen
    ensures Known(b)
  {
    assert b.s.requests.Keys == t.end.requests.Keys == t.mid.requests.Keys == a.s.requests.Keys;
  }

  lemma StepKeeps(cfg: Config, a: Sys, b: Sys, out: Output, t: Trail)
    requires Inv(cfg, a) && Next(cfg, a, Step(out, t), b)
    ensures Inv(cfg, b)
  {
    StepOuts(cfg, a, b.s, out, t);
    StepKnown(cfg, a, b, out, t);
    if t.mid.scheduled != {} {
      StepPrefillKeeps(cfg, a, b, out, t);
    } else {
      StepDecodeKeeps(cfg, a, b, out, t);
    }
  }

  /* ----- Runs ----- */

  lemma NextKeeps(cfg: Config, a: Sys, e: Event, b: Sys)
    requires Inv(cfg, a) && Next(cfg, a, e, b)
    ensures Inv(cfg, b)
  {
    match e
    case Arrive(x, r) => ArriveKeeps(cfg, a, x, r);
    case Step(out, t) => StepKeeps(cfg, a, b, out, t);
    case TakeIn(k, results) => TakeInKeeps(cfg, a, k, results);
    case Abort(ids) => AbortKeeps(cfg, a, ids);
  }

  ghost predicate IsRun(cfg: Config, run: seq<Sys>, events: seq<Event>) {
    && |run| == |events| + 1
    && run[0] == Sys(State([], [], {}, {}, map[]), [], {})
    && forall i :: 0 <= i < |events| ==> Next(cfg, run[i], events[i], run[i + 1])
  }

  /** Every state of every run satisfies the invariant. */
  lemma {:induction false} RunSafe(cfg: Config, run: seq<Sys>, events: seq<Event>, i: nat)
    requires IsRun(cfg, run, events) && i < |run|
    ensures Inv(cfg, run[i])
  {
    if i > 0 {
      RunSafe(cfg, run, events, i - 1);
      NextKeeps(cfg, run[i - 1], events[i - 1], run[i]);
    }
  }

  /** In every run, whenever a step reaches the decode pass, each running request is exactly one token ahead. */
  lemma DecodeAssertionHolds(cfg: Config, run: seq<Sys>, events: seq<Event>, i: nat, x: Id)
    requires IsRun(cfg, run, events) && i < |events| && events[i].Step?
    requires events[i].t.mid.scheduled == {} && x in events[i].t.mid.running
    ensures x in events[i].t.mid.requests && OneAhead(events[i].t.mid.requests[x])
  {
    RunSafe(cfg, run, events, i);
    var t := events[i].t;
    assert Next(cfg, run[i], events[i], run[i + 1]);
    DecodeStart(cfg, run[i].s, t.mid, t.pass, t.verdicts);
  }

  /** A request resumed in a step was looked at with everything still to compute, and got exactly the tokens that the
      cache did not answer as its prefix. */
  lemma ResumedInStep(cfg: Config, s: State, s': State, out: Output, t: Trail, x: Id) returns (j: nat)
    requires Ready(cfg, s) && ScheduleStep(cfg, s, s', out, t) && x in out.resumedReqs
    ensures j < |t.looks| && t.looks[j].s.waiting != [] && t.looks[j].s.waiting[0] == x
    ensures x in s.requests && s.requests[x].status == Preempted && s.requests[x].computed == 0
    ensures x in out.numScheduled && out.numScheduled[x] == s.requests[x].numTokens - t.looks[j].a.matched
  {
    PrefillStart(cfg, s);
    PassSettles(cfg, s, t.mid, t.pass, t.looks);
    if t.mid.scheduled == {} {
      NothingAdmitted(s, t.mid, t.pass, t.verdicts);
    }
    j := ResumedVerdict(s, t.mid, t.pass, t.verdicts, x);
    ResumedLook(cfg, s, t.mid, t.pass, t.looks, t.verdicts, j);
  }

  lemma ResumedVerdict(s: State, mid: State, p: Pass, v: seq<Verdict>, x: Id) returns (j: nat)
    requires PrefillOrder(s, mid, p, v) && x in p.resumedReqs
    ensures j < |v| <= |s.waiting| && s.waiting[j] == x && v[j] == Resumed
  {
    PickMembers(s.waiting, v, {Resumed}, x);
    j :| 0 <= j < |v| && s.waiting[j] == x && v[j] in {Resumed};
  }

  lemma ResumedLook(cfg: Config, s: State, mid: State, p: Pass, looks: seq<Look>, v: seq<Verdict>, j: nat)
    requires VerdictsFrom(cfg, looks, v) && AllSettled(s, looks, mid, p) && j < |v| && v[j] == Resumed
    requires j < |s.waiting| && s.waiting[j] in s.requests && WaitingOk(s.requests[s.waiting[j]])
    ensures var x := s.waiting[j];
            && looks[j].s.waiting != [] && looks[j].s.waiting[0] == x
            && s.requests[x].status == Preempted && s.requests[x].computed == 0
            && x in p.tokens && p.tokens[x] == s.requests[x].numTokens - looks[j].a.matched
  {
    assert LookOk(cfg, looks[j]) && v[j] == VerdictOf(looks[j]);
    assert Settled(s, looks[j], s.waiting[j], mid, p);
  }

  /** In every run: preemption throws a request's computed tokens away, and resuming it schedules all of its tokens
      beyond the prefix that the cache answers. */
  lemma ResumedFromCache(cfg: Config, run: seq<Sys>, events: seq<Event>, i: nat, x: Id) returns (j: nat)
    requires IsRun(cfg, run, events) && i < |events| && events[i].Step? && x in events[i].out.resumedReqs
    ensures var s, t := run[i].s, events[i].t;
            && j < |t.looks| && t.looks[j].s.waiting != [] && t.looks[j].s.waiting[0] == x
            && x in s.requests && s.requests[x].computed == 0 && x in events[i].out.numScheduled
            && events[i].out.numScheduled[x] == s.requests[x].numTokens - t.looks[j].a.matched
  {
    RunSafe(cfg, run, events, i);
    assert Next(cfg, run[i], events[i], run[i + 1]);
    j := ResumedInStep(cfg, run[i].s, run[i + 1].s, events[i].out, events[i].t, x);
  }
}
