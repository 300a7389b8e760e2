/** The scheduler object: `AscendScheduler.schedule` (non-chunked), `finish_requests`, `update_from_output`. */
module Scheduler {
  import opened Common
  import opened SchedulerState

  /** Tokens a request has been given become computed; speculative tokens that were not scheduled are dropped. */
  function AdvanceRequest(r: Request, n: int): Request {
    var kept := n + r.computed - r.numTokens;
    r.(computed := r.computed + n, spec := if r.spec > 0 && 0 < kept < r.spec then kept else r.spec)
  }

  function Advance(requests: map<Id, Request>, tokens: map<Id, int>): (m: map<Id, Request>)
    ensures m.Keys == requests.Keys
    ensures forall x :: x in requests ==>
              m[x] == if x in tokens then AdvanceRequest(requests[x], tokens[x]) else requests[x]
  {
    map x | x in requests :: if x in tokens then AdvanceRequest(requests[x], tokens[x]) else requests[x]
  }

  /** The closing bookkeeping of a scheduling step. */
  function Finalize(s: State, tokens: map<Id, int>): State {
    s.(requests := Advance(s.requests, tokens), finished := {})
  }

  /** How a scheduling step went: prefill verdicts and result, decode verdicts and result. */
  datatype Trail = Trail(verdicts: seq<Verdict>, looks: seq<Look>, pass: Pass, mid: State,
                         decodes: seq<Verdict>, budget: int, loras: set<nat>, end: State)

  /** One call of `schedule`: the prefill pass, then the decode pass only if nothing is in flight. */
  ghost predicate ScheduleStep(cfg: Config, s: State, s': State, out: Output, t: Trail) {
    && PrefillDone(cfg, s, t.mid, t.pass, t.verdicts) && PassLooked(cfg, s, t.mid, t.pass, t.looks)
    && VerdictsFrom(cfg, t.looks, t.verdicts)
    && out.newReqs == t.pass.newReqs && out.resumedReqs == t.pass.resumedReqs && out.finished == t.mid.finished
    && s' == Finalize(t.end, out.numScheduled)
    && if t.mid.scheduled != {} then
         out.runningReqs == [] && out.numScheduled == t.pass.tokens && t.end == t.mid
       else
         && DecodeInv(cfg, t.mid, t.end, t.decodes, out.numScheduled, t.budget, t.loras)
         && out.runningReqs == Pick(t.mid.running, t.decodes, {New})
         && AllConsidered(t.end, t.decodes, t.budget)
  }

  /** The decode pass ends only at the end of the running list or of the budget. */
  ghost predicate AllConsidered(s: State, v: seq<Verdict>, budget: int) {
    |v| == |s.running| || budget <= 0
  }

  /** What `schedule` relies on: distinct queued ids, runnable requests, limits respected so far. */
  ghost predicate Ready(cfg: Config, s: State) {
    && Distinct(s.running + s.waiting)
    && |s.running| <= cfg.maxRunning
    && (forall j :: 0 <= j < |s.waiting| ==> s.waiting[j] in s.requests && WaitingOk(s.requests[s.waiting[j]]))
    && (forall j :: 0 <= j < |s.running| ==> s.running[j] in s.requests && RunningOk(s.requests[s.running[j]]))
    && (forall j :: 0 <= j < |s.running| && s.running[j] !in s.scheduled ==> OneAhead(s.requests[s.running[j]]))
  }

  ghost predicate RunningOk(r: Request) {
    r.status == Running && r.numTokens >= 1
  }

  /** The decode pass's assertion: exactly one token is not computed yet. */
  predicate OneAhead(r: Request) {
    r.numTokens - r.computed == 1
  }

  /** What the other components answer about the request at the head of the queue: whether its remote
      cache has arrived and what it then looks like, its cached prefix, whether the rest is to be loaded
      asynchronously, and whether the watermark and the block pool let it in. */
  datatype Answers = Answers(ready: bool, loaded: Request, matched: int, loadAsync: bool, watermark: bool, slots: bool)

  ghost predicate AnswersOk(r: Request, a: Answers) {
    && SameWork(r, a.loaded) && a.loaded.status == r.status && WaitingOk(a.loaded)
    && (!a.loadAsync ==> 0 <= a.matched < r.numTokens)
  }

  /** Any answers within the contract of the cache manager and the connector. */
  method Ask(r: Request) returns (a: Answers)
    requires WaitingOk(r)
    ensures AnswersOk(r, a)
  {
    var ready, loadAsync, watermark, slots := *, *, *, *;
    var matched: int, computed: int := *, *;
    if !loadAsync && !(0 <= matched < r.numTokens) { matched := 0; }
    if !(0 <= computed < r.numTokens) || r.status == Preempted { computed := 0; }
    a := Answers(ready, r.(computed := computed), matched, loadAsync, watermark, slots);
  }

  /** The request as the loop sees it once its remote cache has been asked for. */
  function Current(r: Request, a: Answers): Request {
    if r.status == WaitingForRemoteKvs && a.ready then a.loaded.(status := Waiting) else r
  }

  /** Whether prefix and length are to be taken from the cache lookup. */
  function Computed(r: Request, a: Answers): int {
    if Current(r, a).computed == 0 then a.matched else Current(r, a).computed
  }

  predicate LoadsAsync(r: Request, a: Answers) {
    Current(r, a).computed == 0 && a.loadAsync
  }

  /** Remote cache present and adapter limit respected: the request's length is looked at. */
  ghost predicate Eligible(cfg: Config, r: Request, p: Pass, a: Answers) {
    (r.status == WaitingForRemoteKvs ==> a.ready) && LoraFits(cfg, r, p.loras)
  }

  ghost predicate TooLong(cfg: Config, r: Request, a: Answers) {
    !LoadsAsync(r, a) && r.numTokens - Computed(r, a) > PromptLimit(cfg, r)
  }

  /** The request's new tokens fit the remaining budget and the cache stays above its watermark. */
  ghost predicate Affordable(r: Request, p: Pass, a: Answers) {
    (!LoadsAsync(r, a) ==> r.numTokens - Computed(r, a) <= p.budget) && a.watermark
  }

  /* ----- Updates from outside ----- */

  /** The queue without some of its ids, order kept. */
  function Without(s: seq<Id>, gone: set<Id>): seq<Id> {
    if s == [] then []
    else Without(s[..|s| - 1], gone) + (if s[|s| - 1] in gone then [] else [s[|s| - 1]])
  }

  ghost function KeptFrom(s: seq<Id>, gone: set<Id>): (r: seq<nat>)
    ensures forall i :: 0 <= i < |r| ==> r[i] < |s|
    ensures forall i, j :: 0 <= i < j < |r| ==> r[i] < r[j]
  {
    if s == [] then []
    else KeptFrom(s[..|s| - 1], gone) + (if s[|s| - 1] in gone then [] else [|s| - 1])
  }

  lemma {:induction false} WithoutAt(s: seq<Id>, gone: set<Id>)
    ensures |KeptFrom(s, gone)| == |Without(s, gone)|
    ensures forall i :: 0 <= i < |KeptFrom(s, gone)| ==> Without(s, gone)[i] == s[KeptFrom(s, gone)[i]]
    ensures forall x :: x in Without(s, gone) <==> x in s && x !in gone
  {
    if s != [] {
      WithoutAt(s[..|s| - 1], gone);
      assert s == s[..|s| - 1] + [s[|s| - 1]];
    }
  }

  /** What is left is what should be, in the old order. */
  ghost predicate LeftOver(a: seq<Id>, b: seq<Id>, gone: set<Id>) {
    OrderKept(a, b) && forall x :: x in a <==> x in b && x !in gone
  }

  lemma WithoutLeaves(s: seq<Id>, gone: set<Id>)
    ensures LeftOver(Without(s, gone), s, gone)
  {
    WithoutAt(s, gone);
    OrderFromPlaces(Without(s, gone), s, KeptFrom(s, gone));
  }

  /** Running requests for which the output scheduled tokens. */
  function Processed(s: State, out: Output): set<Id> {
    set x | x in s.running && x in out.numScheduled && out.numScheduled[x] != 0
  }

  /** What the model step did to each processed request: it ended, or it goes on as given. */
  ghost predicate ResultsOk(s: State, out: Output, results: map<Id, Option<Request>>) {
    forall x :: x in Processed(s, out) ==>
      x in results && (results[x].Some? ==> RunningOk(results[x].value) && OneAhead(results[x].value))
  }

  function Ended(s: State, out: Output, results: map<Id, Option<Request>>): set<Id> {
    set x | x in Processed(s, out) && x in results && results[x] == None
  }

  /** State after a model step's output has been taken in. */
  function AfterUpdate(s: State, out: Output, results: map<Id, Option<Request>>): State {
    var ended := Ended(s, out, results);
    State(s.waiting, Without(s.running, ended), s.scheduled - Processed(s, out), s.finished + ended,
          map x | x in s.requests && x !in ended ::
            if x in Processed(s, out) && x in results && results[x].Some? then results[x].value else s.requests[x])
  }

  /** State after some requests have been aborted. */
  function AfterFinish(s: State, ids: set<Id>): State {
    State(Without(s.waiting, ids), Without(s.running, ids),
          s.scheduled - (set x | x in ids && x in s.requests && s.requests[x].status == Running),
          s.finished + (ids * s.requests.Keys), s.requests - ids)
  }

  function AfterAdd(s: State, x: Id, r: Request): State {
    s.(waiting := s.waiting + [x], requests := s.requests[x := r])
  }

  /* ----- The scheduler object ----- */

  ghost predicate PrefillInv(cfg: Config, s0: State, s: State, p: Pass, v: seq<Verdict>) {
    PrefillQueues(s0, s, p, v) && PrefillRequests(cfg, s0, s, p, v) && PrefillBudget(cfg, s0, s, p, v)
  }

  /** The pass gave up on its head, which stays queued: the same as having skipped it. */
  ghost predicate PrefillStopped(cfg: Config, s0: State, s: State, p: Pass, v: seq<Verdict>) {
    && |v| < |s0.waiting| && PrefillQueues(s0, s, p, v)
    && PrefillRequests(cfg, s0, s, p, v + [Skip]) && PrefillBudget(cfg, s0, s, p, v + [Skip])
  }

  lemma PrefillStart(cfg: Config, s: State)
    requires Ready(cfg, s)
    ensures Distinct(s.waiting) && Distinct(s.running)
    ensures PrefillInv(cfg, s, s, Pass([], map[], cfg.maxTokens, {}, [], []), [])
  {
    forall i, j | 0 <= i < j < |s.waiting| ensures s.waiting[i] != s.waiting[j] {
      assert (s.running + s.waiting)[|s.running| + i] != (s.running + s.waiting)[|s.running| + j];
    }
    forall i, j | 0 <= i < j < |s.running| ensures s.running[i] != s.running[j] {
      assert (s.running + s.waiting)[i] != (s.running + s.waiting)[j];
    }
  }

  /** Putting the skipped requests back restores the queue order. */
  lemma PutBack(cfg: Config, s0: State, s: State, p: Pass, v: seq<Verdict>)
    requires PrefillInv(cfg, s0, s, p, v)
    ensures PrefillDone(cfg, s0, s.(waiting := Reverse(p.skipped) + s.waiting), p, v)
  {
  }

  lemma PutBackStopped(cfg: Config, s0: State, s: State, p: Pass, v: seq<Verdict>)
    requires PrefillStopped(cfg, s0, s, p, v)
    ensures PrefillDone(cfg, s0, s.(waiting := Reverse(p.skipped) + s.waiting), p, v + [Skip])
  {
    OrderStopped(s0, s, p, v);
  }

  lemma OrderStopped(s0: State, s: State, p: Pass, v: seq<Verdict>)
    requires |v| < |s0.waiting| && PrefillQueues(s0, s, p, v)
    ensures PrefillOrder(s0, s.(waiting := Reverse(p.skipped) + s.waiting), p, v + [Skip])
  {
    SkipPicks(s0.waiting, v);
    var x, picked := s0.waiting[|v|], Pick(s0.waiting, v, {Skip});
    assert picked + s0.waiting[|v|..] == (picked + [x]) + s0.waiting[|v| + 1..];
  }

  lemma SkipPicks(queue: seq<Id>, v: seq<Verdict>)
    requires |v| < |queue|
    ensures Pick(queue, v + [Skip], {Skip}) == Pick(queue, v, {Skip}) + [queue[|v|]]
    ensures forall vs :: Skip !in vs ==> Pick(queue, v + [Skip], vs) == Pick(queue, v, vs)
  {
    PickAll(queue, v, Skip);
  }

  lemma AfterAdmit(cfg: Config, s0: State, s: State, p: Pass, v: seq<Verdict>, computed: int, n: int)
    requires PrefillInv(cfg, s0, s, p, v) && Distinct(s0.waiting)
    requires s.waiting != [] && s.waiting[0] in s.requests && |s.running| < cfg.maxRunning
    requires Admissible(cfg, s.requests[s.waiting[0]], p, computed, n)
    ensures PrefillInv(cfg, s0, AdmitHead(s, computed), AdmitPass(cfg, p, s.waiting[0], s.requests[s.waiting[0]], n),
                       v + [AdmitVerdict(s.requests[s.waiting[0]])])
  {
    var x := s.waiting[0];
    var r := s.requests[x];
    HeadFacts(cfg, s0, s, p, v);
    QueuesAfterAdmit(cfg, s0, s, p, v, computed, n);
    BudgetAfterAdmit(cfg, s0, s, p, v, computed, n, AdmitVerdict(r));
    AdmitVerdictOk(cfg, r, x, p, computed, n);
    RequestsStep(cfg, s0, s, AdmitHead(s, computed), p, AdmitPass(cfg, p, x, r, n), v, x, AdmitVerdict(r));
  }

  lemma AfterSkip(cfg: Config, s0: State, s: State, p: Pass, v: seq<Verdict>, r: Request)
    requires PrefillInv(cfg, s0, s, p, v) && Distinct(s0.waiting)
    requires s.waiting != [] && s.waiting[0] in s.requests
    requires WaitingOk(r) && SameWork(s.requests[s.waiting[0]], r)
    ensures PrefillInv(cfg, s0, SkipHead(s, r), p.(skipped := [s.waiting[0]] + p.skipped), v + [Skip])
  {
    HeadFacts(cfg, s0, s, p, v);
    QueuesAfterSkip(s0, s, p, v, r);
    var p' := p.(skipped := [s.waiting[0]] + p.skipped);
    RequestsStep(cfg, s0, s, SkipHead(s, r), p, p', v, s.waiting[0], Skip);
    BudgetStep(cfg, s0, s, SkipHead(s, r), p, v, Skip);
  }

  lemma AfterStop(cfg: Config, s0: State, s: State, p: Pass, v: seq<Verdict>, r: Request)
    requires PrefillInv(cfg, s0, s, p, v) && Distinct(s0.waiting)
    requires s.waiting != [] && s.waiting[0] in s.requests
    requires WaitingOk(r) && SameWork(s.requests[s.waiting[0]], r)
    ensures PrefillStopped(cfg, s0, s.(requests := s.requests[s.waiting[0] := r]), p, v)
  {
    HeadFacts(cfg, s0, s, p, v);
    var s' := s.(requests := s.requests[s.waiting[0] := r]);
    QueuesOnly(s0, s, s', p, v);
    RequestsStep(cfg, s0, s, s', p, p, v, s.waiting[0], Skip);
    BudgetStep(cfg, s0, s, s', p, v, Skip);
  }

  lemma QueuesOnly(s0: State, s: State, s': State, p: Pass, v: seq<Verdict>)
    requires PrefillQueues(s0, s, p, v) && s' == s.(requests := s'.requests)
    ensures PrefillQueues(s0, s', p, v)
  {
  }

  lemma AfterIgnore(cfg: Config, s0: State, s: State, p: Pass, v: seq<Verdict>)
    requires PrefillInv(cfg, s0, s, p, v) && Distinct(s0.waiting)
    requires s.waiting != [] && s.waiting[0] in s.requests
    requires PromptLimit(cfg, s.requests[s.waiting[0]]) < s.requests[s.waiting[0]].numTokens
    ensures PrefillInv(cfg, s0, IgnoreHead(s), p, v + [Ignore])
  {
    HeadFacts(cfg, s0, s, p, v);
    QueuesAfterIgnore(s0, s, p, v);
    RequestsStep(cfg, s0, s, IgnoreHead(s), p, p, v, s.waiting[0], Ignore);
    BudgetStep(cfg, s0, s, IgnoreHead(s), p, v, Ignore);
  }

  function AdmitVerdict(r: Request): Verdict {
    if r.status == Preempted then Resumed else New
  }

  ghost predicate Admissible(cfg: Config, r: Request, p: Pass, computed: int, n: int) {
    && LoraFits(cfg, r, p.loras) && 0 <= computed && computed + n == r.numTokens
    && 0 < n <= p.budget && n <= PromptLimit(cfg, r)
  }

  lemma AdmitVerdictOk(cfg: Config, r: Request, x: Id, p: Pass, computed: int, n: int)
    requires Admissible(cfg, r, p, computed, n)
    ensures VerdictOk(cfg, AdmitVerdict(r), r, r.(status := Running, computed := computed), x, AdmitPass(cfg, p, x, r, n))
  {
  }

  /** The ways an iteration of the prefill loop can end. */
  datatype Decision = Postpone(r: Request) | Drop | GiveUp(r: Request) | Take(computed: int, n: int)

  /** Which decision is taken, and when. */
  ghost predicate DecisionTaken(cfg: Config, r: Request, p: Pass, a: Answers, d: Decision) {
    && (d.Drop? <==> Eligible(cfg, r, p, a) && TooLong(cfg, r, a))
    && (d.GiveUp? <==> Eligible(cfg, r, p, a) && !TooLong(cfg, r, a) && Affordable(r, p, a) && !a.slots)
    && (d.Take? <==> Eligible(cfg, r, p, a) && !TooLong(cfg, r, a) && Affordable(r, p, a) && a.slots && !LoadsAsync(r, a))
    && (d.Take? ==> d.computed == Computed(r, a) && d.computed + d.n == r.numTokens)
    && (d.GiveUp? ==> d.r == Current(r, a))
    && (d.Postpone? ==> d.r == if Eligible(cfg, r, p, a) && Affordable(r, p, a) && LoadsAsync(r, a)
                               then Current(r, a).(status := WaitingForRemoteKvs) else Current(r, a))
  }

  /** One iteration of the prefill loop: the state and loop variables it finds, the answers it gets, the decision. */
  datatype Look = Look(s: State, p: Pass, a: Answers, d: Decision)

  ghost predicate LookOk(cfg: Config, l: Look) {
    && l.s.waiting != [] && l.s.waiting[0] in l.s.requests
    && 0 < l.p.budget && |l.s.running| != cfg.maxRunning
    && AnswersOk(l.s.requests[l.s.waiting[0]], l.a)
    && DecisionTaken(cfg, l.s.requests[l.s.waiting[0]], l.p, l.a, l.d)
    && WithinLimits(cfg, l.s.requests[l.s.waiting[0]], l.a, l.d)
  }

  /** What an iteration leaves. */
  ghost function AfterLook(cfg: Config, l: Look): (State, Pass)
    requires l.s.waiting != [] && l.s.waiting[0] in l.s.requests
  {
    var x := l.s.waiting[0];
    match l.d
    case Postpone(r) => (SkipHead(l.s, r), l.p.(skipped := [x] + l.p.skipped))
    case Drop => (IgnoreHead(l.s), l.p)
    case GiveUp(r) => (l.s.(requests := l.s.requests[x := r]), l.p)
    case Take(computed, n) => (AdmitHead(l.s, computed), AdmitPass(cfg, l.p, x, l.s.requests[x], n))
  }

  /** The iterations lead from `s0` to `s` and `p`; only the last one can give up. */
  ghost predicate Looked(cfg: Config, s0: State, looks: seq<Look>, s: State, p: Pass)
    decreases |looks|
  {
    if looks == [] then s == s0 && p == Pass([], map[], cfg.maxTokens, {}, [], [])
    else
      var k := |looks| - 1;
      && Looked(cfg, s0, looks[..k], looks[k].s, looks[k].p)
      && !GaveUp(looks[..k]) && LookOk(cfg, looks[k]) && (s, p) == AfterLook(cfg, looks[k])
  }

  /** The cache had no room for the last request looked at. */
  ghost predicate GaveUp(looks: seq<Look>) {
    looks != [] && looks[|looks| - 1].d.GiveUp?
  }

  /** The loop ends with the queue, with the budget, with a full running list, or when slots are refused. */
  ghost predicate PrefillEnds(cfg: Config, looks: seq<Look>, s: State, p: Pass) {
    s.waiting == [] || p.budget <= 0 || |s.running| == cfg.maxRunning || GaveUp(looks)
  }

  /** A request postponed or given up on is skipped, one dropped is ignored, one taken is admitted. */
  ghost function VerdictOf(l: Look): Verdict
    requires l.s.waiting != [] && l.s.waiting[0] in l.s.requests
  {
    match l.d
    case Postpone(_) => Skip
    case GiveUp(_) => Skip
    case Drop => Ignore
    case Take(_, _) => AdmitVerdict(l.s.requests[l.s.waiting[0]])
  }

  /** Every verdict is the decision taken on the answers to that request. */
  ghost predicate VerdictsFrom(cfg: Config, looks: seq<Look>, v: seq<Verdict>) {
    |v| == |looks| && forall j :: 0 <= j < |v| ==> LookOk(cfg, looks[j]) && v[j] == VerdictOf(looks[j])
  }

  /** The whole prefill pass is its iterations, ended for one of these reasons, and the skipped requests put back. */
  ghost predicate PassLooked(cfg: Config, s0: State, mid: State, p: Pass, looks: seq<Look>) {
    exists s :: Looked(cfg, s0, looks, s, p) && PrefillEnds(cfg, looks, s, p)
             && mid == s.(waiting := Reverse(p.skipped) + s.waiting)
  }

  /** The prefill loop between two iterations. */
  ghost predicate PassInv(cfg: Config, s0: State, s: State, p: Pass, v: seq<Verdict>, looks: seq<Look>) {
    && PrefillInv(cfg, s0, s, p, v) && Looked(cfg, s0, looks, s, p) && !GaveUp(looks)
    && VerdictsFrom(cfg, looks, v) && Ready(cfg, s0) && Distinct(s0.waiting)
  }

  /** The prefill loop when it has ended; a request given up on has no verdict yet. */
  ghost predicate PassEnd(cfg: Config, s0: State, s: State, p: Pass, v: seq<Verdict>, looks: seq<Look>) {
    && Looked(cfg, s0, looks, s, p) && PrefillEnds(cfg, looks, s, p)
    && if GaveUp(looks) then PrefillStopped(cfg, s0, s, p, v) && VerdictsFrom(cfg, looks, v + [Skip])
       else PrefillInv(cfg, s0, s, p, v) && VerdictsFrom(cfg, looks, v)
  }

  lemma LookNext(cfg: Config, s0: State, looks: seq<Look>, s: State, p: Pass, l: Look)
    requires Looked(cfg, s0, looks, s, p) && !GaveUp(looks) && l.s == s && l.p == p && LookOk(cfg, l)
    ensures Looked(cfg, s0, looks + [l], AfterLook(cfg, l).0, AfterLook(cfg, l).1)
    ensures GaveUp(looks + [l]) <==> l.d.GiveUp?
  {
    assert (looks + [l])[..|looks|] == looks;
  }

  lemma VerdictNext(cfg: Config, looks: seq<Look>, v: seq<Verdict>, l: Look)
    requires VerdictsFrom(cfg, looks, v) && LookOk(cfg, l)
    ensures VerdictsFrom(cfg, looks + [l], v + [VerdictOf(l)])
  {
  }

  /** Putting the skipped requests back completes the pass. */
  lemma PassPutBack(cfg: Config, s0: State, s: State, p: Pass, v: seq<Verdict>, looks: seq<Look>)
    requires PassEnd(cfg, s0, s, p, v, looks)
    ensures var mid, v' := s.(waiting := Reverse(p.skipped) + s.waiting), if GaveUp(looks) then v + [Skip] else v;
            PrefillDone(cfg, s0, mid, p, v') && PassLooked(cfg, s0, mid, p, looks) && VerdictsFrom(cfg, looks, v')
  {
    if GaveUp(looks) {
      PutBackStopped(cfg, s0, s, p, v);
    } else {
      PutBack(cfg, s0, s, p, v);
    }
  }

  /** Too many tokens for a prompt: more than the cache has room for, or than the long-context adapter allows, or
      without one more than the model length or a batch. */
  ghost predicate TooBig(cfg: Config, r: Request, n: int) {
    || n > cfg.numBlocks * cfg.blockSize
    || if r.lora.Some? && r.longLimit != 0 then n > r.longLimit else n > cfg.maxModelLen || n > cfg.maxBatchedTokens
  }

  /** What is dropped exceeds a limit, what is taken exceeds none. */
  ghost predicate WithinLimits(cfg: Config, r: Request, a: Answers, d: Decision) {
    && (d.Drop? ==> TooBig(cfg, r, r.numTokens - Computed(r, a)))
    && (d.Take? ==> !TooBig(cfg, r, d.n))
  }

  lemma DecisionWithinLimits(cfg: Config, r: Request, p: Pass, a: Answers, d: Decision)
    requires DecisionOk(cfg, r, p, d) && DecisionTaken(cfg, r, p, a, d)
    ensures WithinLimits(cfg, r, a, d)
  {
  }

  ghost predicate DecisionOk(cfg: Config, r: Request, p: Pass, d: Decision) {
    match d
    case Postpone(r') => WaitingOk(r') && SameWork(r, r')
    case Drop => PromptLimit(cfg, r) < r.numTokens
    case GiveUp(r') => WaitingOk(r') && SameWork(r, r')
    case Take(computed, n) => Admissible(cfg, r, p, computed, n)
  }

  /** The loop variables of the decode pass. */
  datatype Lot = Lot(tokens: map<Id, int>, budget: int, loras: set<nat>)

  /** A running request that has not been preempted is as it was before the pass. */
  lemma KeptRequest(s0: State, s: State, i: nat)
    requires DecodeQueues(s0, s) && DecodeRequests(s0, s) && Distinct(s0.running) && i < |s.running|
    ensures s.running[i] == s0.running[i] && s.running[i] in s0.requests
    ensures s.requests[s.running[i]] == s0.requests[s.running[i]]
  {
  }

  /** The request the decode pass looks at next is not among those it has scheduled. */
  lemma NotYetScheduled(s0: State, v: seq<Verdict>, i: nat)
    requires Distinct(s0.running) && i == |v| < |s0.running|
    ensures s0.running[i] !in Ids(Pick(s0.running, v, {New}))
  {
    PickMembers(s0.running, v, {New}, s0.running[i]);
  }

  /** When the preempted request is the i-th one, everything from i on has gone. */
  lemma SameLast(s0: State, s: State, i: nat)
    requires DecodeQueues(s0, s) && Distinct(s0.running)
    requires i <= |s.running| < |s0.running| && s0.running[|s.running|] == s0.running[i]
    ensures i == |s.running|
  {
  }

  /** An empty in-flight set after the prefill pass means that nothing was admitted. */
  lemma NothingAdmitted(s0: State, mid: State, p: Pass, v: seq<Verdict>)
    requires PrefillOrder(s0, mid, p, v) && mid.scheduled == {}
    ensures Pick(s0.waiting, v, ADMITTED) == [] && s0.scheduled == {}
    ensures mid.running == s0.running && p.newReqs == [] && p.resumedReqs == []
  {
    IdsEmpty(Pick(s0.waiting, v, ADMITTED));
    PickLengths(s0.waiting, v);
  }

  /** A decode pass that starts finds nothing admitted and every running request one token ahead. */
  lemma DecodeStart(cfg: Config, s0: State, mid: State, p: Pass, v: seq<Verdict>)
    requires Ready(cfg, s0) && PrefillDone(cfg, s0, mid, p, v) && mid.scheduled == {}
    ensures mid.running == s0.running && Distinct(mid.running) && p.newReqs == [] && p.resumedReqs == []
    ensures forall j :: 0 <= j < |mid.running| ==> mid.running[j] in mid.requests && OneAhead(mid.requests[mid.running[j]])
    ensures DecodeInv(cfg, mid, mid, [], p.tokens, p.budget, p.loras)
  {
    NothingAdmitted(s0, mid, p, v);
    PrefillStart(cfg, s0);
    forall j | 0 <= j < |mid.running|
      ensures mid.running[j] in mid.requests && OneAhead(mid.requests[mid.running[j]])
    {
      NotQueued(cfg, s0, j);
    }
    DecodeInvStart(cfg, mid, p);
  }

  lemma DecodeInvStart(cfg: Config, mid: State, p: Pass)
    requires mid.scheduled == {} && forall j :: 0 <= j < |mid.running| ==> mid.running[j] in mid.requests
    requires BudgetOk(cfg, [], |mid.running|, p.tokens, p.budget, p.loras)
    ensures DecodeInv(cfg, mid, mid, [], p.tokens, p.budget, p.loras)
  {
  }

  /** The scheduled tokens, each request counted once, stay within the budget. */
  ghost predicate WithinBudget(cfg: Config, tokens: map<Id, int>) {
    exists ids: seq<Id> :: Distinct(ids) && tokens.Keys == Ids(ids) && TokenTotal(ids, tokens) <= cfg.maxTokens
  }

  lemma BudgetCloses(cfg: Config, ids: seq<Id>, numRunning: nat, tokens: map<Id, int>, left: int, loras: set<nat>)
    requires BudgetOk(cfg, ids, numRunning, tokens, left, loras) && Distinct(ids)
    ensures WithinBudget(cfg, tokens)
  {
  }

  /** The assertions at the end of `schedule`, after a step that only admitted prefills. */
  lemma PrefillCloses(cfg: Config, s0: State, mid: State, p: Pass, v: seq<Verdict>)
    requires Ready(cfg, s0) && PrefillDone(cfg, s0, mid, p, v)
    ensures p.tokens.Keys <= mid.requests.Keys
    ensures WithinBudget(cfg, p.tokens)
    ensures |p.newReqs| + |p.resumedReqs| <= |mid.running| <= cfg.maxRunning
  {
    PrefillStart(cfg, s0);
    var admitted := Pick(s0.waiting, v, ADMITTED);
    PickDistinct(s0.waiting, v, ADMITTED);
    PickLengths(s0.waiting, v);
    BudgetCloses(cfg, admitted, |mid.running|, p.tokens, p.budget, p.loras);
    forall x | x in p.tokens ensures x in mid.requests {
      PickMembers(s0.waiting, v, ADMITTED, x);
    }
  }

  /** The same after a step that went on to the decode pass. */
  lemma DecodeCloses(cfg: Config, mid: State, end: State, d: seq<Verdict>, lot: Lot)
    requires DecodeInv(cfg, mid, end, d, lot.tokens, lot.budget, lot.loras) && Distinct(mid.running)
    ensures lot.tokens.Keys <= end.requests.Keys
    ensures WithinBudget(cfg, lot.tokens)
    ensures |Pick(mid.running, d, {New})| <= |end.running| <= cfg.maxRunning
  {
    PickDistinct(mid.running, d, {New});
    PickLengths(mid.running, d);
    BudgetCloses(cfg, Pick(mid.running, d, {New}), |end.running|, lot.tokens, lot.budget, lot.loras);
    forall x | x in lot.tokens ensures x in end.requests {
      PickMembers(mid.running, d, {New}, x);
    }
  }

  lemma NotQueued(cfg: Config, s: State, j: nat)
    requires Ready(cfg, s) && j < |s.running|
    ensures s.running[j] !in s.waiting
  {
    forall i | 0 <= i < |s.waiting| ensures s.waiting[i] != s.running[j] {
      assert (s.running + s.waiting)[j] != (s.running + s.waiting)[|s.running| + i];
    }
  }

  /* ----- What the prefill pass does to each request ----- */

  /** What iteration `l` did to its request `x`, which it found as in `s0`. */
  ghost predicate Settled(s0: State, l: Look, x: Id, s: State, p: Pass) {
    && l.s.waiting != [] && l.s.waiting[0] == x && x in s0.requests && x in l.s.requests && x in s.requests
    && l.s.requests[x] == s0.requests[x]
    && match l.d
       case Postpone(r) => s.requests[x] == r
       case GiveUp(r) => s.requests[x] == r
       case Drop => s.requests[x] == s0.requests[x].(status := FinishedIgnored) && x in s.finished
       case Take(computed, n) =>
         && s.requests[x] == s0.requests[x].(status := Running, computed := computed)
         && x in s.running && x in p.tokens && p.tokens[x] == n
  }

  /** The request of every iteration ended up as decided, and no other request was touched. */
  ghost predicate AllSettled(s0: State, looks: seq<Look>, s: State, p: Pass) {
    && |looks| <= |s0.waiting|
    && (forall j :: 0 <= j < |looks| ==> Settled(s0, looks[j], s0.waiting[j], s, p))
    && (forall x :: x in s0.requests && x !in s0.waiting[..|looks|] ==> x in s.requests && s.requests[x] == s0.requests[x])
    && (forall x :: x in p.tokens ==> x in s0.waiting[..|looks|])
  }

  /** A settled request stays settled when another one is looked at. */
  lemma StaysSettled(cfg: Config, s0: State, k: Look, y: Id, l: Look)
    requires Settled(s0, k, y, l.s, l.p)
    requires l.s.waiting != [] && l.s.waiting[0] in l.s.requests && l.s.waiting[0] != y
    ensures Settled(s0, k, y, AfterLook(cfg, l).0, AfterLook(cfg, l).1)
  {
  }

  lemma SettlesOwn(cfg: Config, s0: State, l: Look, x: Id)
    requires l.s.waiting != [] && l.s.waiting[0] == x && x in l.s.requests && x in s0.requests
    requires l.s.requests[x] == s0.requests[x]
    ensures Settled(s0, l, x, AfterLook(cfg, l).0, AfterLook(cfg, l).1)
  {
  }

  lemma OthersUntouched(cfg: Config, l: Look, y: Id)
    requires l.s.waiting != [] && l.s.waiting[0] in l.s.requests && l.s.waiting[0] != y && y in l.s.requests
    ensures y in AfterLook(cfg, l).0.requests && AfterLook(cfg, l).0.requests[y] == l.s.requests[y]
  {
  }

  /** The next iteration settles its own request only. */
  lemma SettleNext(cfg: Config, s0: State, looks: seq<Look>, l: Look)
    requires Distinct(s0.waiting) && |looks| < |s0.waiting| && l.s.waiting == s0.waiting[|looks|..]
    requires AllSettled(s0, looks, l.s, l.p) && s0.waiting[|looks|] in s0.requests && s0.waiting[|looks|] in l.s.requests
    ensures AllSettled(s0, looks + [l], AfterLook(cfg, l).0, AfterLook(cfg, l).1)
  {
    var looks', k, x := looks + [l], |looks|, s0.waiting[|looks|];
    var s', p' := AfterLook(cfg, l).0, AfterLook(cfg, l).1;
    assert s0.waiting[..k + 1] == s0.waiting[..k] + [x];
    forall j | 0 <= j < |looks'| ensures Settled(s0, looks'[j], s0.waiting[j], s', p') {
      if j < k { StaysSettled(cfg, s0, looks[j], s0.waiting[j], l); } else { SettlesOwn(cfg, s0, l, x); }
    }
    forall y | y in s0.requests && y !in s0.waiting[..k + 1] ensures y in s'.requests && s'.requests[y] == s0.requests[y] {
      OthersUntouched(cfg, l, y);
    }
  }

  lemma {:induction false} LookedSettles(cfg: Config, s0: State, looks: seq<Look>, s: State, p: Pass)
    requires Distinct(s0.waiting) && forall j :: 0 <= j < |s0.waiting| ==> s0.waiting[j] in s0.requests
    requires Looked(cfg, s0, looks, s, p)
    ensures AllSettled(s0, looks, s, p)
    ensures !GaveUp(looks) ==> s.waiting == s0.waiting[|looks|..]
    decreases |looks|
  {
    if looks != [] {
      var k := |looks| - 1;
      LookedSettles(cfg, s0, looks[..k], looks[k].s, looks[k].p);
      HeadIsNext(s0, looks[..k], looks[k]);
      SettleNext(cfg, s0, looks[..k], looks[k]);
      assert looks == looks[..k] + [looks[k]];
    }
  }

  lemma HeadIsNext(s0: State, looks: seq<Look>, l: Look)
    requires Distinct(s0.waiting) && forall j :: 0 <= j < |s0.waiting| ==> s0.waiting[j] in s0.requests
    requires AllSettled(s0, looks, l.s, l.p) && l.s.waiting == s0.waiting[|looks|..] && l.s.waiting != []
    ensures |looks| < |s0.waiting| && s0.waiting[|looks|] in s0.requests && s0.waiting[|looks|] in l.s.requests
  {
  }

  lemma WaitingDoesNotMatter(s0: State, looks: seq<Look>, s: State, mid: State, p: Pass)
    requires AllSettled(s0, looks, s, p) && mid == s.(waiting := mid.waiting)
    ensures AllSettled(s0, looks, mid, p)
  {
    forall j | 0 <= j < |looks| ensures Settled(s0, looks[j], s0.waiting[j], mid, p) {
      assert Settled(s0, looks[j], s0.waiting[j], s, p);
    }
  }

  lemma PassSettles(cfg: Config, s0: State, mid: State, p: Pass, looks: seq<Look>)
    requires Distinct(s0.waiting) && forall j :: 0 <= j < |s0.waiting| ==> s0.waiting[j] in s0.requests
    requires PassLooked(cfg, s0, mid, p, looks)
    ensures AllSettled(s0, looks, mid, p)
  {
    var s :| Looked(cfg, s0, looks, s, p) && mid == s.(waiting := Reverse(p.skipped) + s.waiting);
    LookedSettles(cfg, s0, looks, s, p);
    WaitingDoesNotMatter(s0, looks, s, mid, p);
  }

  lemma PassFacts(cfg: Config, s0: State, mid: State, p: Pass, v: seq<Verdict>, looks: seq<Look>)
    requires Ready(cfg, s0) && PassLooked(cfg, s0, mid, p, looks) && PrefillOrder(s0, mid, p, v)
    ensures AllSettled(s0, looks, mid, p) && OrderKept(mid.waiting, s0.waiting)
  {
    PrefillStart(cfg, s0);
    PassSettles(cfg, s0, mid, p, looks);
    SkippedKeepOrder(s0.waiting, v);
  }

  /* ----- What a step does to each request ----- */

  /** A request that has left `running` is back in the queue and will be computed from scratch. */
  ghost predicate PreemptedAfresh(a: State, b: State) {
    forall x :: x in a.running && x !in b.running ==>
      && x in b.waiting && x in a.requests && x in b.requests
      && b.requests[x] == a.requests[x].(status := Preempted, computed := 0)
  }

  lemma DecodePreempts(s0: State, s: State)
    requires DecodeQueues(s0, s) && DecodeRequests(s0, s) && Distinct(s0.running)
    ensures PreemptedAfresh(s0, s)
    ensures forall x :: x in s.running ==> x in s0.requests && x in s.requests && s.requests[x] == s0.requests[x]
  {
    var n := |s.running|;
    forall x | x in s0.running && x !in s.running ensures x in s0.running[n..] {
      var j :| 0 <= j < |s0.running| && s0.running[j] == x;
      assert s0.running[n..][j - n] == x;
    }
    forall x | x in s.running ensures x in s0.requests && x !in s0.running[n..] {
      var j :| 0 <= j < n && s.running[j] == x;
      assert s0.running[j] == x;
    }
  }

  /** Tokens of the running requests: no more than needed and than the model length leaves, less than both only when
      the budget is used up; and none only for lack of need, length, budget or a free adapter. */
  ghost predicate GrantedWell(cfg: Config, a: State, running: seq<Id>, granted: seq<Id>, tokens: map<Id, int>,
                              budget: int, loras: set<nat>) {
    forall x :: x in running ==> x in a.requests && GrantOk(cfg, a.requests[x], x, x in granted, tokens, budget, loras)
  }

  ghost predicate GrantOk(cfg: Config, r: Request, x: Id, granted: bool, tokens: map<Id, int>, budget: int, loras: set<nat>) {
    var need, room := r.numTokens + r.spec - r.computed, cfg.maxModelLen - r.computed;
    if granted then
      && x in tokens && tokens[x] != 0 && tokens[x] <= need && tokens[x] <= room
      && (tokens[x] == need || tokens[x] == room || budget == 0)
    else
      budget <= 0 || need == 0 || room == 0 || !LoraFits(cfg, r, loras)
  }

  lemma EntryMeansGrant(cfg: Config, v: Verdict, r: Request, x: Id, tokens: map<Id, int>, budget: int, loras: set<nat>)
    requires DecodeEntry(cfg, v, r, x, tokens, budget, loras)
    ensures GrantOk(cfg, r, x, v == New, tokens, budget, loras)
  {
  }

  lemma DecodeGrants(cfg: Config, s0: State, s: State, v: seq<Verdict>, tokens: map<Id, int>, budget: int, loras: set<nat>)
    requires DecodeQueues(s0, s) && DecodeEntries(cfg, s0, v, tokens, budget, loras) && |v| <= |s.running|
    requires Distinct(s0.running) && AllConsidered(s, v, budget)
    ensures GrantedWell(cfg, s0, s.running, Pick(s0.running, v, {New}), tokens, budget, loras)
  {
    var granted := Pick(s0.running, v, {New});
    forall x | x in s.running
      ensures x in s0.requests && GrantOk(cfg, s0.requests[x], x, x in granted, tokens, budget, loras)
    {
      var j :| 0 <= j < |s.running| && s.running[j] == x;
      GrantAt(cfg, s0, v, tokens, budget, loras, j);
    }
  }

  lemma GrantAt(cfg: Config, s0: State, v: seq<Verdict>, tokens: map<Id, int>, budget: int, loras: set<nat>, j: nat)
    requires DecodeEntries(cfg, s0, v, tokens, budget, loras) && Distinct(s0.running)
    requires j < |s0.running| && (j < |v| || budget <= 0)
    ensures var x := s0.running[j];
            x in s0.requests && GrantOk(cfg, s0.requests[x], x, x in Pick(s0.running, v, {New}), tokens, budget, loras)
  {
    PickMembers(s0.running, v, {New}, s0.running[j]);
    if j < |v| {
      EntryMeansGrant(cfg, v[j], s0.requests[s0.running[j]], s0.running[j], tokens, budget, loras);
    }
  }

  /** A request admitted in a step is computed to its end by it. */
  ghost predicate PrefilledWhole(a: State, b: State, out: Output) {
    forall x :: x in out.newReqs || x in out.resumedReqs ==> PrefilledOne(a, b, x)
  }

  ghost predicate PrefilledOne(a: State, b: State, x: Id) {
    && x in a.requests && x in b.requests && x in b.running && b.requests[x].status == Running
    && b.requests[x].computed == b.requests[x].numTokens == a.requests[x].numTokens
    && b.requests[x].spec == a.requests[x].spec
  }

  /** A running request advances by the tokens it got; of its speculative tokens those that were scheduled stay. */
  ghost predicate DecodedOn(a: State, b: State, out: Output) {
    forall x :: x in out.runningReqs ==>
      && x in a.requests && x in b.requests && x in out.numScheduled
      && var kept := out.numScheduled[x] + a.requests[x].computed - a.requests[x].numTokens;
         b.requests[x] == a.requests[x].(computed := a.requests[x].computed + out.numScheduled[x],
                                         spec := if 0 < kept < a.requests[x].spec then kept else a.requests[x].spec)
  }

  lemma StepEffects(cfg: Config, s: State, s': State, out: Output, t: Trail)
    requires Ready(cfg, s) && ScheduleStep(cfg, s, s', out, t)
    ensures PreemptedAfresh(s, s') && PrefilledWhole(s, s', out) && DecodedOn(s, s', out)
  {
    PrefillStart(cfg, s);
    if t.mid.scheduled != {} {
      PrefillEffects(cfg, s, s', out, t);
    } else {
      DecodeEffects(cfg, s, s', out, t);
    }
  }

  lemma PrefillEffects(cfg: Config, s: State, s': State, out: Output, t: Trail)
    requires Ready(cfg, s) && ScheduleStep(cfg, s, s', out, t) && t.mid.scheduled != {}
    ensures PreemptedAfresh(s, s') && PrefilledWhole(s, s', out) && DecodedOn(s, s', out)
  {
    forall x | x in out.newReqs || x in out.resumedReqs ensures PrefilledOne(s, s', x) {
      AdmittedWhole(cfg, s, t.mid, s', t.pass, t.verdicts, x);
    }
  }

  /** The verdict of an admitted request. */
  lemma AdmittedAt(cfg: Config, s: State, mid: State, p: Pass, v: seq<Verdict>, x: Id) returns (j: nat)
    requires PrefillDone(cfg, s, mid, p, v) && (x in p.newReqs || x in p.resumedReqs)
    ensures j < |v| <= |s.waiting| && s.waiting[j] == x && v[j] in ADMITTED
    ensures x in p.resumedReqs ==> v[j] == Resumed || exists i :: 0 <= i < |v| && s.waiting[i] == x && v[i] == Resumed
    ensures x in mid.running && x in mid.scheduled
  {
    PickMembers(s.waiting, v, {New}, x);
    PickMembers(s.waiting, v, {Resumed}, x);
    PickMembers(s.waiting, v, ADMITTED, x);
    j :| 0 <= j < |v| && s.waiting[j] == x && v[j] in ADMITTED;
  }

  /** One admitted request. */
  lemma AdmittedWhole(cfg: Config, s: State, mid: State, s': State, p: Pass, v: seq<Verdict>, x: Id)
    requires PrefillDone(cfg, s, mid, p, v) && s' == Finalize(mid, p.tokens)
    requires x in p.newReqs || x in p.resumedReqs
    ensures PrefilledOne(s, s', x)
  {
    var j := AdmittedAt(cfg, s, mid, p, v, x);
    var r := AdmittedRequest(cfg, s, mid, p, v, j);
    assert s'.requests[x] == AdvanceRequest(r, p.tokens[x]);
  }

  lemma AdmittedRequest(cfg: Config, s: State, mid: State, p: Pass, v: seq<Verdict>, j: nat) returns (r: Request)
    requires PrefillDone(cfg, s, mid, p, v) && j < |v| <= |s.waiting| && v[j] in ADMITTED
    ensures var x := s.waiting[j];
            && x in s.requests && x in mid.requests && r == mid.requests[x] && x in p.tokens
            && r.status == Running && r.computed + p.tokens[x] == r.numTokens == s.requests[x].numTokens
            && r.spec == s.requests[x].spec && 0 < p.tokens[x]
  {
    var x := s.waiting[j];
    assert VerdictOk(cfg, v[j], s.requests[x], mid.requests[x], x, p);
    r := mid.requests[x];
  }

  /** A decode step starts from the running requests as they were. */
  lemma RunningUntouched(cfg: Config, s: State, mid: State, p: Pass, v: seq<Verdict>)
    requires Ready(cfg, s) && PrefillDone(cfg, s, mid, p, v)
    ensures forall x :: x in s.running ==> x in s.requests && x in mid.requests && mid.requests[x] == s.requests[x]
  {
    forall x | x in s.running ensures x in s.requests && x in mid.requests && mid.requests[x] == s.requests[x] {
      var j :| 0 <= j < |s.running| && s.running[j] == x;
      NotQueued(cfg, s, j);
    }
  }

  lemma DecodeEffects(cfg: Config, s: State, s': State, out: Output, t: Trail)
    requires Ready(cfg, s) && ScheduleStep(cfg, s, s', out, t) && t.mid.scheduled == {}
    ensures PreemptedAfresh(s, s') && PrefilledWhole(s, s', out) && DecodedOn(s, s', out)
  {
    PrefillStart(cfg, s);
    NothingAdmitted(s, t.mid, t.pass, t.verdicts);
    RunningUntouched(cfg, s, t.mid, t.pass, t.verdicts);
    DecodePreempts(t.mid, t.end);
    AdvanceGranted(cfg, t.mid, t.end, s', out, t.decodes, t.budget, t.loras);
    forall x | x in out.runningReqs ensures x in s.running {
      PickMembers(t.mid.running, t.decodes, {New}, x);
    }
    CarryBack(s, t.mid, s', out);
  }

  /** Adding the granted tokens leaves preempted requests alone and moves the others on. */
  lemma AdvanceGranted(cfg: Config, s0: State, s: State, s': State, out: Output, v: seq<Verdict>, budget: int, loras: set<nat>)
    requires DecodeInv(cfg, s0, s, v, out.numScheduled, budget, loras) && out.runningReqs == Pick(s0.running, v, {New})
    requires PreemptedAfresh(s0, s) && s' == Finalize(s, out.numScheduled)
    requires forall x :: x in s.running ==> x in s0.requests && x in s.requests && s.requests[x] == s0.requests[x]
    ensures PreemptedAfresh(s0, s') && DecodedOn(s0, s', out)
  {
    forall x | x in out.runningReqs || x in out.numScheduled
      ensures x in s.running && x in out.numScheduled
    {
      GrantedRuns(cfg, s0, s, v, out.numScheduled, budget, loras, x);
    }
  }

  lemma CarryBack(s: State, mid: State, s': State, out: Output)
    requires mid.running == s.running && PreemptedAfresh(mid, s') && DecodedOn(mid, s', out)
    requires forall x :: x in s.running ==> x in s.requests && x in mid.requests && mid.requests[x] == s.requests[x]
    requires forall x :: x in out.runningReqs ==> x in s.running
    ensures PreemptedAfresh(s, s') && DecodedOn(s, s', out)
  {
  }

  lemma GrantedRuns(cfg: Config, s0: State, s: State, v: seq<Verdict>, tokens: map<Id, int>, budget: int, loras: set<nat>, x: Id)
    requires DecodeInv(cfg, s0, s, v, tokens, budget, loras)
    ensures x in Pick(s0.running, v, {New}) <==> x in tokens
    ensures x in tokens ==> x in s.running
  {
    PickMembers(s0.running, v, {New}, x);
    if x in tokens {
      var j :| 0 <= j < |v| && s0.running[j] == x;
      assert s.running[j] == x;
    }
  }

  class AscendScheduler {
    const cfg: Config
    var waiting: seq<Id>
    var running: seq<Id>
    var scheduledReqIds: set<Id>
    var finishedReqIds: set<Id>
    var requests: map<Id, Request>

    ghost function View(): State
      reads this
    {
      State(waiting, running, scheduledReqIds, finishedReqIds, requests)
    }

    constructor (cfg: Config)
      ensures this.cfg == cfg && View() == State([], [], {}, {}, map[])
    {
      this.cfg := cfg;
      waiting, running, scheduledReqIds, finishedReqIds, requests := [], [], {}, {}, map[];
    }

    method SkipCurrent(p: Pass, r: Request) returns (p': Pass)
      requires waiting != []
      modifies this
      ensures View() == SkipHead(old(View()), r)
      ensures p' == p.(skipped := [old(waiting[0])] + p.skipped)
    {
      var x := waiting[0];
      waiting := waiting[1..];
      requests := requests[x := r];
      p' := p.(skipped := [x] + p.skipped);
    }

    method IgnoreCurrent()
      requires waiting != [] && waiting[0] in requests
      modifies this
      ensures View() == IgnoreHead(old(View()))
    {
      var x := waiting[0];
      requests := requests[x := requests[x].(status := FinishedIgnored)];
      finishedReqIds := finishedReqIds + {x};
      waiting := waiting[1..];
    }

    method AdmitCurrent(p: Pass, computed: int, n: int) returns (p': Pass)
      requires waiting != [] && waiting[0] in requests
      modifies this
      ensures View() == AdmitHead(old(View()), computed)
      ensures p' == AdmitPass(cfg, p, old(waiting[0]), old(requests[waiting[0]]), n)
    {
      var x := waiting[0];
      var r := requests[x];
      waiting := waiting[1..];
      running := running + [x];
      scheduledReqIds := scheduledReqIds + {x};
      var newReqs, resumedReqs := p.newReqs, p.resumedReqs;
      if r.status == Preempted {
        resumedReqs := resumedReqs + [x];
      } else {
        newReqs := newReqs + [x];
      }
      requests := requests[x := r.(status := Running, computed := computed)];
      p' := Pass(p.skipped, p.tokens[x := n], p.budget - n, AddLora(cfg, r, p.loras), newReqs, resumedReqs);
    }

    /** What the prefill loop decides about the head of the queue. */
    method Decide(p: Pass, a: Answers) returns (d: Decision)
      requires waiting != [] && waiting[0] in requests && WaitingOk(requests[waiting[0]]) && 0 < p.budget
      requires cfg.maxLoras.Some? ==> |p.loras| <= cfg.maxLoras.value
      requires AnswersOk(requests[waiting[0]], a)
      ensures DecisionOk(cfg, requests[waiting[0]], p, d)
      ensures DecisionTaken(cfg, requests[waiting[0]], p, a, d)
    {
      var r := requests[waiting[0]];
      if r.status == WaitingForRemoteKvs {
        if !a.ready {
          return Postpone(r);
        }
        r := a.loaded.(status := Waiting);
      }
      if cfg.maxLoras.Some? && r.lora.Some? && |p.loras| == cfg.maxLoras.value && r.lora.value !in p.loras {
        return Postpone(r);
      }
      var computed, loadAsync := r.computed, false;
      if r.computed == 0 {
        computed, loadAsync := a.matched, a.loadAsync;
      }
      var n := 0;
      if !loadAsync {
        n := r.numTokens - computed;
        if n > PromptLimit(cfg, r) {
          return Drop;
        }
        if n > p.budget {
          return Postpone(r);
        }
        assert n > 0;
      }
      if !a.watermark {
        return Postpone(r);
      }
      if !a.slots {
        return GiveUp(r);
      }
      if loadAsync {
        return Postpone(r.(status := WaitingForRemoteKvs));
      }
      return Take(computed, n);
    }

    /** One iteration of the prefill loop; `stop` means the cache had no room and the loop ends. */
    method ConsiderHead(p: Pass, ghost s0: State, ghost v: seq<Verdict>)
      returns (p': Pass, stop: bool, ghost v': seq<Verdict>, ghost l: Look)
      requires PrefillInv(cfg, s0, View(), p, v) && Ready(cfg, s0) && Distinct(s0.waiting)
      requires waiting != [] && 0 < p.budget && |running| < cfg.maxRunning
      modifies this
      ensures !stop ==> PrefillInv(cfg, s0, View(), p', v') && |waiting| < old(|waiting|)
      ensures stop ==> p' == p && v' == v && PrefillStopped(cfg, s0, View(), p, v)
      ensures l.s == old(View()) && l.p == p && LookOk(cfg, l) && (View(), p') == AfterLook(cfg, l)
      ensures (stop <==> l.d.GiveUp?) && (!stop ==> v' == v + [VerdictOf(l)])
    {
      HeadFacts(cfg, s0, View(), p, v);
      var a := Ask(requests[waiting[0]]);
      var d := Decide(p, a);
      l := Look(View(), p, a, d);
      DecisionWithinLimits(cfg, requests[waiting[0]], p, a, d);
      p', stop, v' := p, false, v;
      match d
      case Postpone(r) =>
        AfterSkip(cfg, s0, View(), p, v, r);
        p' := SkipCurrent(p, r);
        v' := v + [Skip];
      case Drop =>
        AfterIgnore(cfg, s0, View(), p, v);
        IgnoreCurrent();
        v' := v + [Ignore];
      case GiveUp(r) =>
        AfterStop(cfg, s0, View(), p, v, r);
        requests := requests[waiting[0] := r];
        stop := true;
      case Take(computed, n) =>
        AfterAdmit(cfg, s0, View(), p, v, computed, n);
        v' := v + [AdmitVerdict(requests[waiting[0]])];
        p' := AdmitCurrent(p, computed, n);
    }

    /** The prefill loop, before the skipped requests are put back. */
    method PrefillLoop() returns (p: Pass, ghost v: seq<Verdict>, ghost looks: seq<Look>)
      requires Ready(cfg, View())
      modifies this
      ensures PassEnd(cfg, old(View()), View(), p, v, looks)
    {
      ghost var s0 := View();
      p, v, looks := Pass([], map[], cfg.maxTokens, {}, [], []), [], [];
      PrefillStart(cfg, s0);
      while waiting != [] && p.budget > 0
        invariant PassInv(cfg, s0, View(), p, v, looks)
        decreases |waiting|
      {
        if |running| == cfg.maxRunning {
          break;
        }
        ghost var s, p0, v0 := View(), p, v;
        var stop; ghost var l;
        p, stop, v, l := ConsiderHead(p, s0, v);
        LookNext(cfg, s0, looks, s, p0, l);
        VerdictNext(cfg, looks, v0, l);
        looks := looks + [l];
        if stop {
          return;
        }
      }
    }

    method PrefillPass() returns (p: Pass, ghost v: seq<Verdict>, ghost looks: seq<Look>)
      requires Ready(cfg, View())
      modifies this
      ensures PrefillDone(cfg, old(View()), View(), p, v)
      ensures PassLooked(cfg, old(View()), View(), p, looks) && VerdictsFrom(cfg, looks, v)
      ensures AllSettled(old(View()), looks, View(), p) && OrderKept(waiting, old(waiting))
    {
      ghost var s0 := View();
      p, v, looks := PrefillLoop();
      PassPutBack(cfg, s0, View(), p, v, looks);
      v := if GaveUp(looks) then v + [Skip] else v;
      waiting := ExtendLeft(waiting, p.skipped);
      PassFacts(cfg, s0, View(), p, v, looks);
    }

    method PreemptTail() returns (x: Id)
      requires running != [] && running[|running| - 1] in requests
      modifies this
      ensures View() == PreemptLast(old(View()))
      ensures x == old(running[|running| - 1])
    {
      x := running[|running| - 1];
      running := running[..|running| - 1];
      requests := requests[x := Preempt(requests[x])];
      waiting := [x] + waiting;
    }

    /** Preempts from the tail until the request fits; `ok` is false when it had to go itself. */
    method MakeRoom(i: nat, ghost s0: State, ghost v: seq<Verdict>, ghost lot: Lot) returns (ok: bool)
      requires DecodeInv(cfg, s0, View(), v, lot.tokens, lot.budget, lot.loras) && Distinct(s0.running)
      requires i == |v| < |running|
      modifies this
      ensures DecodeInv(cfg, s0, View(), v, lot.tokens, lot.budget, lot.loras)
      ensures |running| <= old(|running|)
      ensures ok <==> i < |running|
    {
      var x := running[i];
      while true
        invariant i < |running| <= old(|running|) && running[i] == x == s0.running[i]
        invariant DecodeInv(cfg, s0, View(), v, lot.tokens, lot.budget, lot.loras)
        decreases |running|
      {
        var slots := *;
        if slots {
          return true;
        }
        PreemptStep(cfg, s0, View(), v, lot.tokens, lot.budget, lot.loras);
        var last := PreemptTail();
        if last == x {
          SameLast(s0, View(), i);
          return false;
        }
        assert i != |running|;
      }
    }

    /** Tokens the decode pass would give a request: zero when its adapter does not fit any more. */
    method TokensFor(r: Request, lot: Lot) returns (n: int)
      requires cfg.maxLoras.Some? ==> |lot.loras| <= cfg.maxLoras.value
      requires lot.budget > 0
      ensures n == 0 <==> Want(cfg, r) == 0 || !LoraFits(cfg, r, lot.loras)
      ensures n != 0 ==> n == if Want(cfg, r) <= lot.budget then Want(cfg, r) else lot.budget
    {
      n := r.numTokens + r.spec - r.computed;
      n := if n <= lot.budget then n else lot.budget;
      n := if n <= cfg.maxModelLen - r.computed then n else cfg.maxModelLen - r.computed;
      if cfg.maxLoras.Some? && r.lora.Some? && |lot.loras| == cfg.maxLoras.value && r.lora.value !in lot.loras {
        n := 0;
      }
    }

    /** Schedules the i-th running request for `n` tokens. */
    method Grant(i: nat, n: int, lot: Lot, ghost s0: State, ghost v: seq<Verdict>) returns (lot': Lot)
      requires DecodeInv(cfg, s0, View(), v, lot.tokens, lot.budget, lot.loras) && Distinct(s0.running)
      requires i == |v| < |running| && lot.budget > 0 && s0.running[i] in s0.requests
      requires var r := s0.requests[s0.running[i]];
               LoraFits(cfg, r, lot.loras) && n != 0 && n == if Want(cfg, r) <= lot.budget then Want(cfg, r) else lot.budget
      modifies this`scheduledReqIds
      ensures DecodeInv(cfg, s0, View(), v + [New], lot'.tokens, lot'.budget, lot'.loras)
    {
      KeptRequest(s0, View(), i);
      TakeStep(cfg, s0, View(), v, lot.tokens, lot.budget, lot.loras, n);
      var x := running[i];
      lot' := Lot(lot.tokens[x := n], lot.budget - n, AddLora(cfg, requests[x], lot.loras));
      MarkScheduled(x);
    }

    method MarkScheduled(x: Id)
      modifies this`scheduledReqIds
      ensures View() == old(View()).(scheduled := old(scheduledReqIds) + {x})
    {
      scheduledReqIds := scheduledReqIds + {x};
    }

    /** One iteration of the decode loop on the i-th running request; `go` is false when the loop ends. */
    method DecodeOne(i: nat, lot: Lot, ghost s0: State, ghost v: seq<Verdict>)
      returns (lot': Lot, taken: bool, go: bool, ghost v': seq<Verdict>)
      requires DecodeInv(cfg, s0, View(), v, lot.tokens, lot.budget, lot.loras) && Distinct(s0.running)
      requires i == |v| < |running| && lot.budget > 0
      requires forall j :: 0 <= j < |s0.running| ==> OneAhead(s0.requests[s0.running[j]])
      modifies this
      ensures DecodeInv(cfg, s0, View(), v', lot'.tokens, lot'.budget, lot'.loras)
      ensures |running| <= old(|running|)
      ensures go ==> v' == v + [if taken then New else Skip]
      ensures !go ==> v' == v && !taken && |running| == i
    {
      var x := running[i];
      KeptRequest(s0, View(), i);
      var r := requests[x];
      assert OneAhead(r);
      // The test for requests that are already scheduled never succeeds here.
      NotYetScheduled(s0, v, i);
      assert x !in scheduledReqIds;
      var n := TokensFor(r, lot);
      if n == 0 {
        PassOverStep(cfg, s0, View(), v, lot.tokens, lot.budget, lot.loras);
        return lot, false, true, v + [Skip];
      }
      var ok := MakeRoom(i, s0, v, lot);
      if !ok {
        return lot, false, false, v;
      }
      lot' := Grant(i, n, lot, s0, v);
      return lot', true, true, v + [New];
    }

    method DecodePass(p: Pass) returns (runningReqs: seq<Id>, lot: Lot, ghost v: seq<Verdict>)
      requires DecodeInv(cfg, View(), View(), [], p.tokens, p.budget, p.loras) && Distinct(running)
      requires forall j :: 0 <= j < |running| ==> OneAhead(requests[running[j]])
      modifies this
      ensures DecodeInv(cfg, old(View()), View(), v, lot.tokens, lot.budget, lot.loras)
      ensures runningReqs == Pick(old(running), v, {New})
      ensures AllConsidered(View(), v, lot.budget)
      ensures PreemptedAfresh(old(View()), View())
      ensures GrantedWell(cfg, old(View()), running, runningReqs, lot.tokens, lot.budget, lot.loras)
    {
      ghost var s0 := View();
      runningReqs, lot, v := [], Lot(p.tokens, p.budget, p.loras), [];
      var i, go := 0, true;
      while go && i < |running| && lot.budget > 0
        invariant go ==> i == |v|
        invariant !go ==> |v| == |running|
        invariant DecodeInv(cfg, s0, View(), v, lot.tokens, lot.budget, lot.loras)
        invariant runningReqs == Pick(s0.running, v, {New})
        decreases go, |running| - i
      {
        var x := running[i];
        assert x == s0.running[i];
        ghost var w := v;
        var taken;
        lot, taken, go, v := DecodeOne(i, lot, s0, v);
        if go {
          PickStep(s0.running, w, if taken then New else Skip, {New});
        }
        if taken {
          runningReqs := runningReqs + [x];
        }
        i := i + 1;
      }
      DecodePreempts(s0, View());
      DecodeGrants(cfg, s0, View(), v, lot.tokens, lot.budget, lot.loras);
    }

    /** Adds the scheduled tokens to the computed ones, request by request. */
    method AdvanceComputed(tokens: map<Id, int>)
      requires tokens.Keys <= requests.Keys
      modifies this`requests
      ensures requests == Advance(old(requests), tokens)
    {
      var todo := tokens.Keys;
      while todo != {}
        invariant todo <= tokens.Keys
        invariant requests == Advance(old(requests), map x | x in tokens && x !in todo :: tokens[x])
        decreases todo
      {
        var x :| x in todo;
        requests := requests[x := AdvanceRequest(requests[x], tokens[x])];
        todo := todo - {x};
      }
      assert (map x | x in tokens && x !in todo :: tokens[x]) == tokens;
    }

    method Schedule() returns (out: Output, ghost t: Trail)
      requires Ready(cfg, View())
      modifies this
      ensures ScheduleStep(cfg, old(View()), View(), out, t)
      ensures WithinBudget(cfg, out.numScheduled)
      ensures |running| <= cfg.maxRunning
      ensures |out.newReqs| + |out.resumedReqs| + |out.runningReqs| <= |running|
      ensures PreemptedAfresh(old(View()), View())
      ensures PrefilledWhole(old(View()), View(), out) && DecodedOn(old(View()), View(), out)
      ensures finishedReqIds == {} && old(finishedReqIds) <= out.finished
    {
      ghost var s0 := View();
      var p; ghost var v, looks;
      p, v, looks := PrefillPass();
      ghost var mid := View();
      PrefillCloses(cfg, s0, mid, p, v);
      var finished := finishedReqIds;
      var runningReqs, lot := [], Lot(p.tokens, p.budget, p.loras);
      ghost var d := [];
      if scheduledReqIds == {} {
        DecodeStart(cfg, s0, mid, p, v);
        runningReqs, lot, d := DecodePass(p);
        DecodeCloses(cfg, mid, View(), d, lot);
      }
      t := Trail(v, looks, p, mid, d, lot.budget, lot.loras, View());
      out := Output(p.newReqs, p.resumedReqs, runningReqs, lot.tokens, finished);
      CloseStep(lot.tokens);
      StepEffects(cfg, s0, View(), out, t);
    }

    /** Advances the computed tokens and starts a new set of finished ids. */
    method CloseStep(tokens: map<Id, int>)
      requires tokens.Keys <= requests.Keys
      modifies this
      ensures View() == Finalize(old(View()), tokens)
    {
      AdvanceComputed(tokens);
      finishedReqIds := {};
    }

    method UpdateFromOutput(out: Output, results: map<Id, Option<Request>>)
      modifies this
      ensures View() == AfterUpdate(old(View()), out, results)
      ensures OrderKept(running, old(running)) && waiting == old(waiting)
      ensures forall x :: x in scheduledReqIds <==>
                x in old(scheduledReqIds) && !(x in old(running) && x in out.numScheduled && out.numScheduled[x] != 0)
    {
      ghost var s := View();
      for i := 0 to |running|
        invariant View() == s.(scheduled := scheduledReqIds)
        invariant scheduledReqIds == s.scheduled - (set x | x in running[..i] && x in out.numScheduled && out.numScheduled[x] != 0)
      {
        var x := running[i];
        assert running[..i + 1] == running[..i] + [x];
        if x in out.numScheduled && out.numScheduled[x] != 0 {
          if x in scheduledReqIds {
            scheduledReqIds := scheduledReqIds - {x};
          }
        }
      }
      assert running[..|running|] == running;
      // The superclass appends the sampled tokens and retires the requests that stop.
      var ended := Ended(State(waiting, running, scheduledReqIds, finishedReqIds, requests), out, results);
      var processed := Processed(State(waiting, running, scheduledReqIds, finishedReqIds, requests), out);
      requests := map x | x in requests && x !in ended ::
        if x in processed && x in results && results[x].Some? then results[x].value else requests[x];
      WithoutLeaves(running, ended);
      running := Without(running, ended);
      finishedReqIds := finishedReqIds + ended;
    }

    method FinishRequests(ids: seq<Id>)
      modifies this
      ensures View() == AfterFinish(old(View()), Ids(ids))
      ensures LeftOver(waiting, old(waiting), Ids(ids)) && LeftOver(running, old(running), Ids(ids))
      ensures forall x :: x in scheduledReqIds <==>
                x in old(scheduledReqIds) && !(x in ids && x in old(requests) && old(requests)[x].status == Running)
    {
      ghost var s := View();
      for i := 0 to |ids|
        invariant View() == s.(scheduled := scheduledReqIds)
        invariant scheduledReqIds == s.scheduled - (set x | x in ids[..i] && x in requests && requests[x].status == Running)
      {
        assert ids[..i + 1] == ids[..i] + [ids[i]];
        if ids[i] in requests && requests[ids[i]].status == Running {
          scheduledReqIds := scheduledReqIds - {ids[i]};
        }
      }
      assert ids[..|ids|] == ids;
      // The superclass takes the requests out of the queues and frees them.
      var gone := Ids(ids);
      WithoutLeaves(waiting, gone);
      WithoutLeaves(running, gone);
      waiting := Without(waiting, gone);
      running := Without(running, gone);
      finishedReqIds := finishedReqIds + gone * requests.Keys;
      requests := requests - gone;
    }

    method AddRequest(x: Id, r: Request)
      modifies this
      ensures View() == AfterAdd(old(View()), x, r)
    {
      waiting := waiting + [x];
      requests := requests[x := r];
    }
  }
}
