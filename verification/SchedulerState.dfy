/** Requests, queues and the two passes of the prefill-first scheduler, as relations between states. */
module SchedulerState {

  import opened Common

  datatype Status = Waiting | WaitingForRemoteKvs | Preempted | Running | FinishedIgnored

  /** `spec` is the number of speculative tokens; `longLimit` is 0 unless the adapter raises the prompt limit. */
  datatype Request = Request(status: Status, numTokens: nat, spec: nat, computed: int, lora: Option<nat>, longLimit: nat)

  datatype Config = Config(maxTokens: nat, maxRunning: nat, maxModelLen: nat, maxBatchedTokens: nat,
                           maxLoras: Option<nat>, numBlocks: nat, blockSize: nat)

  /** The queues and tables a scheduler object keeps. */
  datatype State = State(waiting: seq<Id>, running: seq<Id>, scheduled: set<Id>, finished: set<Id>,
                         requests: map<Id, Request>)

  /** `numScheduled` maps every scheduled request to its number of tokens. */
  datatype Output = Output(newReqs: seq<Id>, resumedReqs: seq<Id>, runningReqs: seq<Id>, numScheduled: map<Id, int>,
                           finished: set<Id>)

  /* ----- Sequences of ids ----- */

  function Ids(s: seq<Id>): set<Id> {
    set x | x in s
  }

  function Reverse(s: seq<Id>): seq<Id> {
    if s == [] then [] else Reverse(s[1..]) + [s[0]]
  }

  /** `deque.extendleft`: pushes the elements one by one on the left end. */
  method ExtendLeft(queue: seq<Id>, xs: seq<Id>) returns (r: seq<Id>)
    ensures r == Reverse(xs) + queue
  {
    r := queue;
    var rest := xs;
    while rest != []
      invariant Reverse(rest) + r == Reverse(xs) + queue
      decreases |rest|
    {
      r := [rest[0]] + r;
      rest := rest[1..];
    }
  }

  /** Total of a token table over a list of ids. */
  function TokenTotal(ids: seq<Id>, tokens: map<Id, int>): int
    requires forall i :: 0 <= i < |ids| ==> ids[i] in tokens
  {
    if ids == [] then 0 else TokenTotal(ids[..|ids| - 1], tokens) + tokens[ids[|ids| - 1]]
  }

  lemma {:induction false} TokenTotalFrame(ids: seq<Id>, tokens: map<Id, int>, x: Id, n: int)
    requires forall i :: 0 <= i < |ids| ==> ids[i] in tokens && ids[i] != x
    ensures TokenTotal(ids, tokens[x := n]) == TokenTotal(ids, tokens)
  {
    if ids != [] { TokenTotalFrame(ids[..|ids| - 1], tokens, x, n); }
  }

  /* ----- Prefill pass ----- */

  /** What the prefill pass decided about one waiting request. */
  datatype Verdict = Skip | Ignore | New | Resumed

  const ADMITTED: set<Verdict> := {New, Resumed}

  /** The first |v| ids whose verdict is among `vs`, in queue order. */
  function Pick(queue: seq<Id>, v: seq<Verdict>, vs: set<Verdict>): seq<Id>
    requires |v| <= |queue|
  {
    if v == [] then []
    else var n := |v| - 1;
         Pick(queue, v[..n], vs) + (if v[n] in vs then [queue[n]] else [])
  }

  lemma PickStep(queue: seq<Id>, v: seq<Verdict>, x: Verdict, vs: set<Verdict>)
    requires |v| < |queue|
    ensures Pick(queue, v + [x], vs) == Pick(queue, v, vs) + (if x in vs then [queue[|v|]] else [])
  {
    assert (v + [x])[..|v|] == v;
  }

  /** Where the picked ids were in the queue. */
  ghost function PickedFrom(v: seq<Verdict>, vs: set<Verdict>): (r: seq<nat>)
    ensures forall i :: 0 <= i < |r| ==> r[i] < |v|
    ensures forall i, j :: 0 <= i < j < |r| ==> r[i] < r[j]
  {
    if v == [] then []
    else var n := |v| - 1; PickedFrom(v[..n], vs) + (if v[n] in vs then [n] else [])
  }

  lemma {:induction false} PickAt(queue: seq<Id>, v: seq<Verdict>, vs: set<Verdict>)
    requires |v| <= |queue|
    ensures |PickedFrom(v, vs)| == |Pick(queue, v, vs)|
    ensures forall i :: 0 <= i < |PickedFrom(v, vs)| ==> Pick(queue, v, vs)[i] == queue[PickedFrom(v, vs)[i]]
  {
    if v != [] { PickAt(queue, v[..|v| - 1], vs); }
  }

  /** Somewhere in the list `x` comes before `y`. */
  ghost predicate Precedes(s: seq<Id>, x: Id, y: Id) {
    exists i, j :: 0 <= i < j < |s| && s[i] == x && s[j] == y
  }

  /** Whatever is in `a` is in `b`, in the same order. */
  ghost predicate OrderKept(a: seq<Id>, b: seq<Id>) {
    && (forall i :: 0 <= i < |a| ==> a[i] in b)
    && (forall i, j :: 0 <= i < j < |a| ==> Precedes(b, a[i], a[j]))
  }

  lemma OrderFromPlaces(a: seq<Id>, b: seq<Id>, at: seq<nat>)
    requires |at| == |a| && forall i :: 0 <= i < |a| ==> at[i] < |b| && a[i] == b[at[i]]
    requires forall i, j :: 0 <= i < j < |a| ==> at[i] < at[j]
    ensures OrderKept(a, b)
  {
    forall i, j | 0 <= i < j < |a| ensures Precedes(b, a[i], a[j]) {
      assert b[at[i]] == a[i] && b[at[j]] == a[j];
    }
  }

  /** Skipped requests and the unprocessed rest are in queue order. */
  lemma SkippedKeepOrder(queue: seq<Id>, v: seq<Verdict>)
    requires |v| <= |queue|
    ensures OrderKept(Pick(queue, v, {Skip}) + queue[|v|..], queue)
  {
    PickAt(queue, v, {Skip});
    var rest: seq<nat> := seq(|queue| - |v|, i requires 0 <= i => |v| + i);
    OrderFromPlaces(Pick(queue, v, {Skip}) + queue[|v|..], queue, PickedFrom(v, {Skip}) + rest);
  }

  /** An id is picked exactly when its own verdict is among `vs`. */
  lemma {:induction false} PickMembers(queue: seq<Id>, v: seq<Verdict>, vs: set<Verdict>, x: Id)
    requires |v| <= |queue|
    ensures x in Pick(queue, v, vs) <==> exists j :: 0 <= j < |v| && queue[j] == x && v[j] in vs
  {
    if v != [] {
      var n := |v| - 1;
      PickMembers(queue, v[..n], vs, x);
      assert forall j :: 0 <= j < n ==> v[..n][j] == v[j];
    }
  }

  lemma {:induction false} PickDistinct(queue: seq<Id>, v: seq<Verdict>, vs: set<Verdict>)
    requires |v| <= |queue| && Distinct(queue)
    ensures Distinct(Pick(queue, v, vs))
  {
    if v != [] {
      var n := |v| - 1;
      PickDistinct(queue, v[..n], vs);
      PickMembers(queue, v[..n], vs, queue[n]);
    }
  }

  lemma PickMultiset(queue: seq<Id>, v: seq<Verdict>, vs: set<Verdict>)
    requires 0 < |v| <= |queue|
    ensures multiset(Pick(queue, v, vs))
         == multiset(Pick(queue, v[..|v| - 1], vs))
          + OneIf(v[|v| - 1] in vs, queue[|v| - 1])
  {
  }

  function OneIf(mine: bool, x: Id): multiset<Id> {
    if mine then multiset{x} else multiset{}
  }

  lemma OneMore(a: multiset<Id>, b: multiset<Id>, c: multiset<Id>, x: Id, v: Verdict)
    ensures (a + OneIf(v in {Skip}, x)) + (b + OneIf(v in {Ignore}, x)) + (c + OneIf(v in ADMITTED, x))
         == a + b + c + multiset{x}
  {
    match v case Skip => case Ignore => case New => case Resumed =>
  }

  /** The verdict classes together account for the whole processed prefix. */
  lemma {:induction false} PickPartition(queue: seq<Id>, v: seq<Verdict>)
    requires |v| <= |queue|
    ensures multiset(queue[..|v|])
         == multiset(Pick(queue, v, {Skip})) + multiset(Pick(queue, v, {Ignore})) + multiset(Pick(queue, v, ADMITTED))
  {
    if v != [] {
      var n := |v| - 1;
      PickPartition(queue, v[..n]);
      assert queue[..|v|] == queue[..n] + [queue[n]];
      PickMultiset(queue, v, {Skip});
      PickMultiset(queue, v, {Ignore});
      PickMultiset(queue, v, ADMITTED);
      OneMore(multiset(Pick(queue, v[..n], {Skip})), multiset(Pick(queue, v[..n], {Ignore})),
              multiset(Pick(queue, v[..n], ADMITTED)), queue[n], v[n]);
    }
  }

  lemma {:induction false} PickLengths(queue: seq<Id>, v: seq<Verdict>)
    requires |v| <= |queue|
    ensures |Pick(queue, v, {New})| + |Pick(queue, v, {Resumed})| == |Pick(queue, v, ADMITTED)| <= |v|
    ensures |Pick(queue, v, {New})| <= |v|
  {
    if v != [] {
      PickLengths(queue, v[..|v| - 1]);
    }
  }

  /** The loop variables of the prefill pass. */
  datatype Pass = Pass(skipped: seq<Id>, tokens: map<Id, int>, budget: int, loras: set<nat>,
                       newReqs: seq<Id>, resumedReqs: seq<Id>)

  /** Longest prompt the scheduler takes. */
  function PromptLimit(cfg: Config, r: Request): nat {
    var limit := if cfg.maxModelLen <= cfg.maxBatchedTokens then cfg.maxModelLen else cfg.maxBatchedTokens;
    var prompt := if r.lora.Some? && r.longLimit != 0 then r.longLimit else limit;
    if prompt <= cfg.numBlocks * cfg.blockSize then prompt else cfg.numBlocks * cfg.blockSize
  }

  /** A queued request has something left to compute; one that was preempted has everything. */
  ghost predicate WaitingOk(r: Request) {
    && r.status in {Waiting, WaitingForRemoteKvs, Preempted} && 0 <= r.computed < r.numTokens
    && (r.status == Preempted ==> r.computed == 0)
  }

  /** Prompt, speculation and adapter of a request are not the scheduler's to change. */
  ghost predicate SameWork(a: Request, b: Request) {
    a.numTokens == b.numTokens && a.spec == b.spec && a.lora == b.lora && a.longLimit == b.longLimit
  }

  /** With adapters limited, the request's adapter is among those in use. */
  ghost predicate LoraCovered(cfg: Config, r: Request, loras: set<nat>) {
    cfg.maxLoras.Some? && r.lora.Some? ==> r.lora.value in loras
  }

  /** What each verdict means for the request `x`, from `old_` before the pass to `r` after it. */
  ghost predicate VerdictOk(cfg: Config, v: Verdict, old_: Request, r: Request, x: Id, p: Pass) {
    SameWork(old_, r) &&
    match v
    case Skip => WaitingOk(r)
    case Ignore => r.status == FinishedIgnored && PromptLimit(cfg, r) < r.numTokens
    case _ =>
      && r.status == Running && (v == Resumed <==> old_.status == Preempted)
      && x in p.tokens && 0 < p.tokens[x] <= PromptLimit(cfg, r)
      && 0 <= r.computed && r.computed + p.tokens[x] == r.numTokens
      && LoraCovered(cfg, r, p.loras)
  }

  /** Queue order during the pass: skipped requests pile up reversed, admitted ones join `running`. */
  ghost predicate PrefillQueues(s0: State, s: State, p: Pass, v: seq<Verdict>) {
    && |v| <= |s0.waiting|
    && s.waiting == s0.waiting[|v|..]
    && Reverse(p.skipped) == Pick(s0.waiting, v, {Skip})
    && s.running == s0.running + Pick(s0.waiting, v, ADMITTED)
    && s.scheduled == s0.scheduled + Ids(Pick(s0.waiting, v, ADMITTED))
    && s.finished == s0.finished + Ids(Pick(s0.waiting, v, {Ignore}))
    && p.newReqs == Pick(s0.waiting, v, {New}) && p.resumedReqs == Pick(s0.waiting, v, {Resumed})
  }

  ghost predicate PrefillRequests(cfg: Config, s0: State, s: State, p: Pass, v: seq<Verdict>) {
    && |v| <= |s0.waiting| && s.requests.Keys == s0.requests.Keys
    && (forall j :: 0 <= j < |s0.waiting| ==> s0.waiting[j] in s0.requests)
    && (forall j :: 0 <= j < |v| ==>
          VerdictOk(cfg, v[j], s0.requests[s0.waiting[j]], s.requests[s0.waiting[j]], s0.waiting[j], p))
    && (forall x :: x in s0.requests && x !in s0.waiting[..|v|] ==> s.requests[x] == s0.requests[x])
  }

  /** Tokens given to `ids` and what is left make up the budget; batch size and adapters stay within limits. */
  ghost predicate BudgetOk(cfg: Config, ids: seq<Id>, numRunning: nat, tokens: map<Id, int>, budget: int, loras: set<nat>) {
    && tokens.Keys == Ids(ids)
    && TokenTotal(ids, tokens) + budget == cfg.maxTokens
    && 0 <= budget
    && numRunning <= cfg.maxRunning
    && (cfg.maxLoras.Some? ==> |loras| <= cfg.maxLoras.value)
  }

  ghost predicate PrefillBudget(cfg: Config, s0: State, s: State, p: Pass, v: seq<Verdict>) {
    |v| <= |s0.waiting| &&
    BudgetOk(cfg, Pick(s0.waiting, v, ADMITTED), |s.running|, p.tokens, p.budget, p.loras)
  }

  /** Taking the request keeps the number of adapters in use within the limit. */
  ghost predicate LoraFits(cfg: Config, r: Request, loras: set<nat>) {
    cfg.maxLoras.Some? && r.lora.Some? ==> |loras| < cfg.maxLoras.value || r.lora.value in loras
  }

  function AddLora(cfg: Config, r: Request, loras: set<nat>): set<nat> {
    if cfg.maxLoras.Some? && r.lora.Some? then loras + {r.lora.value} else loras
  }

  lemma BudgetTake(cfg: Config, ids: seq<Id>, numRunning: nat, tokens: map<Id, int>, budget: int, loras: set<nat>,
                   numRunning': nat, x: Id, n: int, r: Request)
    requires BudgetOk(cfg, ids, numRunning, tokens, budget, loras)
    requires x !in ids && n <= budget && numRunning' <= cfg.maxRunning && LoraFits(cfg, r, loras)
    ensures BudgetOk(cfg, ids + [x], numRunning', tokens[x := n], budget - n, AddLora(cfg, r, loras))
  {
    IdsAppend(ids, x);
    TokenTotalFrame(ids, tokens, x, n);
    assert (ids + [x])[..|ids|] == ids;
  }

  /* One lemma per way an iteration can end. The head of the queue is `x`. */

  function SkipHead(s: State, r: Request): State
    requires s.waiting != []
  {
    s.(waiting := s.waiting[1..], requests := s.requests[s.waiting[0] := r])
  }

  function IgnoreHead(s: State): State
    requires s.waiting != [] && s.waiting[0] in s.requests
  {
    var x := s.waiting[0];
    s.(waiting := s.waiting[1..], finished := s.finished + {x},
       requests := s.requests[x := s.requests[x].(status := FinishedIgnored)])
  }

  function AdmitHead(s: State, computed: int): State
    requires s.waiting != [] && s.waiting[0] in s.requests
  {
    var x := s.waiting[0];
    s.(waiting := s.waiting[1..], running := s.running + [x], scheduled := s.scheduled + {x},
       requests := s.requests[x := s.requests[x].(status := Running, computed := computed)])
  }

  function AdmitPass(cfg: Config, p: Pass, x: Id, r: Request, n: int): Pass {
    Pass(p.skipped, p.tokens[x := n], p.budget - n,
         AddLora(cfg, r, p.loras),
         if r.status == Preempted then p.newReqs else p.newReqs + [x],
         if r.status == Preempted then p.resumedReqs + [x] else p.resumedReqs)
  }

  /** Length and head of the unprocessed queue, and its head's request still as it was. */
  lemma HeadFacts(cfg: Config, s0: State, s: State, p: Pass, v: seq<Verdict>)
    requires PrefillQueues(s0, s, p, v) && PrefillRequests(cfg, s0, s, p, v)
    requires Distinct(s0.waiting) && s.waiting != []
    ensures |v| < |s0.waiting| && s.waiting[0] == s0.waiting[|v|]
    ensures s.waiting[0] in s0.requests && s.requests[s.waiting[0]] == s0.requests[s.waiting[0]]
    ensures s.waiting[0] !in s0.waiting[..|v|]
  {
  }

  lemma ReversePrepend(x: Id, s: seq<Id>)
    ensures Reverse([x] + s) == Reverse(s) + [x]
  {
    assert ([x] + s)[1..] == s;
  }

  /** All the picks of one verdict more. */
  lemma PickAll(queue: seq<Id>, v: seq<Verdict>, x: Verdict)
    requires |v| < |queue|
    ensures forall vs :: Pick(queue, v + [x], vs) == Pick(queue, v, vs) + (if x in vs then [queue[|v|]] else [])
  {
    forall vs ensures Pick(queue, v + [x], vs) == Pick(queue, v, vs) + (if x in vs then [queue[|v|]] else []) {
      PickStep(queue, v, x, vs);
    }
  }

  lemma IdsAppend(s: seq<Id>, x: Id)
    ensures Ids(s + [x]) == Ids(s) + {x}
  {
  }

  lemma IdsEmpty(s: seq<Id>)
    ensures Ids(s) == {} ==> s == []
  {
    if s != [] { assert s[0] in Ids(s); }
  }

  lemma QueuesAfterSkip(s0: State, s: State, p: Pass, v: seq<Verdict>, r: Request)
    requires PrefillQueues(s0, s, p, v) && s.waiting != []
    ensures PrefillQueues(s0, SkipHead(s, r), p.(skipped := [s.waiting[0]] + p.skipped), v + [Skip])
  {
    PickAll(s0.waiting, v, Skip);
    ReversePrepend(s.waiting[0], p.skipped);
  }

  lemma QueuesAfterIgnore(s0: State, s: State, p: Pass, v: seq<Verdict>)
    requires PrefillQueues(s0, s, p, v) && s.waiting != [] && s.waiting[0] in s.requests
    ensures PrefillQueues(s0, IgnoreHead(s), p, v + [Ignore])
  {
    PickAll(s0.waiting, v, Ignore);
    IdsAppend(Pick(s0.waiting, v, {Ignore}), s.waiting[0]);
  }

  lemma QueuesAfterAdmit(cfg: Config, s0: State, s: State, p: Pass, v: seq<Verdict>, computed: int, n: int)
    requires PrefillQueues(s0, s, p, v) && s.waiting != [] && s.waiting[0] in s.requests
    ensures var r := s.requests[s.waiting[0]];
            PrefillQueues(s0, AdmitHead(s, computed), AdmitPass(cfg, p, s.waiting[0], r, n),
                          v + [if r.status == Preempted then Resumed else New])
  {
    var x := s.waiting[0];
    var c := if s.requests[x].status == Preempted then Resumed else New;
    PickAll(s0.waiting, v, c);
    IdsAppend(Pick(s0.waiting, v, ADMITTED), x);
  }

  /** Verdicts survive as long as no token entry changes and no adapter is dropped. */
  lemma VerdictStable(cfg: Config, v: Verdict, old_: Request, r: Request, x: Id, p: Pass, p': Pass)
    requires VerdictOk(cfg, v, old_, r, x, p)
    requires p.loras <= p'.loras && (x in p.tokens ==> x in p'.tokens && p'.tokens[x] == p.tokens[x])
    ensures VerdictOk(cfg, v, old_, r, x, p')
  {
  }

  /** Requests other than the head keep their verdicts when a later one is decided. */
  lemma RequestsStep(cfg: Config, s0: State, s: State, s': State, p: Pass, p': Pass, v: seq<Verdict>, x: Id, c: Verdict)
    requires PrefillRequests(cfg, s0, s, p, v) && Distinct(s0.waiting)
    requires |v| < |s0.waiting| && x == s0.waiting[|v|]
    requires s'.requests.Keys == s.requests.Keys
    requires forall y :: y in s.requests && y != x ==> s'.requests[y] == s.requests[y]
    requires p.loras <= p'.loras && forall y :: y in p.tokens && y != x ==> y in p'.tokens && p'.tokens[y] == p.tokens[y]
    requires VerdictOk(cfg, c, s0.requests[x], s'.requests[x], x, p')
    ensures PrefillRequests(cfg, s0, s', p', v + [c])
  {
    var v' := v + [c];
    forall j | 0 <= j < |v'|
      ensures VerdictOk(cfg, v'[j], s0.requests[s0.waiting[j]], s'.requests[s0.waiting[j]], s0.waiting[j], p')
    {
      if j < |v| {
        var y := s0.waiting[j];
        VerdictStable(cfg, v[j], s0.requests[y], s.requests[y], y, p, p');
      }
    }
    assert s0.waiting[..|v'|] == s0.waiting[..|v|] + [x];
  }

  lemma BudgetStep(cfg: Config, s0: State, s: State, s': State, p: Pass, v: seq<Verdict>, c: Verdict)
    requires PrefillBudget(cfg, s0, s, p, v) && |v| < |s0.waiting| && c !in ADMITTED
    requires s'.running == s.running
    ensures PrefillBudget(cfg, s0, s', p, v + [c])
  {
    PickStep(s0.waiting, v, c, ADMITTED);
    assert Pick(s0.waiting, v + [c], ADMITTED) == Pick(s0.waiting, v, ADMITTED);
  }

  lemma BudgetAfterAdmit(cfg: Config, s0: State, s: State, p: Pass, v: seq<Verdict>, computed: int, n: int, c: Verdict)
    requires PrefillBudget(cfg, s0, s, p, v) && |v| < |s0.waiting| && Distinct(s0.waiting) && c in ADMITTED
    requires s.waiting != [] && s.waiting[0] == s0.waiting[|v|] && s.waiting[0] in s.requests
    requires n <= p.budget && |s.running| < cfg.maxRunning
    requires LoraFits(cfg, s.requests[s.waiting[0]], p.loras)
    ensures PrefillBudget(cfg, s0, AdmitHead(s, computed), AdmitPass(cfg, p, s.waiting[0], s.requests[s.waiting[0]], n), v + [c])
  {
    var x := s.waiting[0];
    PickStep(s0.waiting, v, c, ADMITTED);
    PickMembers(s0.waiting, v, ADMITTED, x);
    BudgetTake(cfg, Pick(s0.waiting, v, ADMITTED), |s.running|, p.tokens, p.budget, p.loras,
               |s.running| + 1, x, n, s.requests[x]);
  }

  /** Queue order after the pass: the skipped requests are back at the head, in their old order. */
  ghost predicate PrefillOrder(s0: State, s: State, p: Pass, v: seq<Verdict>) {
    && |v| <= |s0.waiting|
    && s.waiting == Pick(s0.waiting, v, {Skip}) + s0.waiting[|v|..]
    && s.running == s0.running + Pick(s0.waiting, v, ADMITTED)
    && s.scheduled == s0.scheduled + Ids(Pick(s0.waiting, v, ADMITTED))
    && s.finished == s0.finished + Ids(Pick(s0.waiting, v, {Ignore}))
    && p.newReqs == Pick(s0.waiting, v, {New}) && p.resumedReqs == Pick(s0.waiting, v, {Resumed})
  }

  /** Everything the prefill pass promises. */
  ghost predicate PrefillDone(cfg: Config, s0: State, s: State, p: Pass, v: seq<Verdict>) {
    PrefillOrder(s0, s, p, v) && PrefillRequests(cfg, s0, s, p, v) && PrefillBudget(cfg, s0, s, p, v)
  }

  /* ----- Decode pass ----- */

  /** Tokens a running request asks for. */
  function Want(cfg: Config, r: Request): int {
    var n := r.numTokens + r.spec - r.computed;
    if n <= cfg.maxModelLen - r.computed then n else cfg.maxModelLen - r.computed
  }

  function Preempt(r: Request): Request {
    r.(status := Preempted, computed := 0)
  }

  /** Moves the last running request to the head of the waiting queue. */
  function PreemptLast(s: State): State
    requires s.running != [] && s.running[|s.running| - 1] in s.requests
  {
    var n := |s.running| - 1;
    var x := s.running[n];
    s.(running := s.running[..n], waiting := [x] + s.waiting, requests := s.requests[x := Preempt(s.requests[x])])
  }

  /** Preemption only moves the border between the two queues. */
  ghost predicate DecodeQueues(s0: State, s: State) {
    && |s.running| <= |s0.running|
    && s.running == s0.running[..|s.running|]
    && s.waiting == s0.running[|s.running|..] + s0.waiting
    && s.finished == s0.finished
  }

  ghost predicate DecodeRequests(s0: State, s: State) {
    && |s.running| <= |s0.running| && s.requests.Keys == s0.requests.Keys
    && (forall j :: 0 <= j < |s0.running| ==> s0.running[j] in s0.requests)
    && (forall x :: x in s0.requests ==>
          s.requests[x] == if x in s0.running[|s.running|..] then Preempt(s0.requests[x]) else s0.requests[x])
  }

  /** Why a running request got its tokens, or got none. */
  ghost predicate DecodeEntry(cfg: Config, v: Verdict, r: Request, x: Id, tokens: map<Id, int>, budget: int, loras: set<nat>) {
    if v == New then
      && x in tokens && tokens[x] != 0 && tokens[x] <= Want(cfg, r)
      && (tokens[x] < Want(cfg, r) ==> budget == 0)
      && LoraCovered(cfg, r, loras)
    else
      Want(cfg, r) == 0 || !LoraFits(cfg, r, loras)
  }

  ghost predicate DecodeEntries(cfg: Config, s0: State, v: seq<Verdict>, tokens: map<Id, int>, budget: int, loras: set<nat>) {
    && |v| <= |s0.running|
    && (forall j :: 0 <= j < |s0.running| ==> s0.running[j] in s0.requests)
    && (forall j :: 0 <= j < |v| ==>
          DecodeEntry(cfg, v[j], s0.requests[s0.running[j]], s0.running[j], tokens, budget, loras))
  }

  /** The decode pass after looking at |v| running requests; those with verdict `New` are scheduled. */
  ghost predicate DecodeInv(cfg: Config, s0: State, s: State, v: seq<Verdict>, tokens: map<Id, int>, budget: int, loras: set<nat>) {
    && DecodeQueues(s0, s) && DecodeRequests(s0, s) && |v| <= |s.running|
    && s.scheduled == Ids(Pick(s0.running, v, {New}))
    && DecodeEntries(cfg, s0, v, tokens, budget, loras)
    && BudgetOk(cfg, Pick(s0.running, v, {New}), |s.running|, tokens, budget, loras)
  }

  /** Preempting keeps `running ++ waiting` as it is. */
  lemma PreemptQueues(s0: State, s: State)
    requires DecodeQueues(s0, s) && s.running != [] && s.running[|s.running| - 1] in s.requests
    ensures DecodeQueues(s0, PreemptLast(s))
  {
    var n := |s.running| - 1;
    assert s0.running[n..] == [s0.running[n]] + s0.running[n + 1..];
  }

  lemma PreemptRequests(s0: State, s: State)
    requires DecodeQueues(s0, s) && DecodeRequests(s0, s) && s.running != []
    requires Distinct(s0.running)
    ensures s.running[|s.running| - 1] in s.requests
    ensures DecodeRequests(s0, PreemptLast(s))
  {
    var n := |s.running| - 1;
    assert s.running[n] == s0.running[n];
    assert s0.running[n..] == [s0.running[n]] + s0.running[n + 1..];
    assert s0.running[n] !in s0.running[n + 1..];
  }

  lemma PreemptStep(cfg: Config, s0: State, s: State, v: seq<Verdict>, tokens: map<Id, int>, budget: int, loras: set<nat>)
    requires DecodeInv(cfg, s0, s, v, tokens, budget, loras) && Distinct(s0.running)
    requires |v| < |s.running|
    ensures s.running[|s.running| - 1] in s.requests
    ensures DecodeInv(cfg, s0, PreemptLast(s), v, tokens, budget, loras)
  {
    PreemptRequests(s0, s);
    PreemptQueues(s0, s);
  }

  lemma EntriesStep(cfg: Config, s0: State, v: seq<Verdict>, tokens: map<Id, int>, budget: int, loras: set<nat>,
                    c: Verdict, tokens': map<Id, int>, budget': int, loras': set<nat>)
    requires DecodeEntries(cfg, s0, v, tokens, budget, loras) && |v| < |s0.running| && budget > 0
    requires loras <= loras' && (forall r :: !LoraFits(cfg, r, loras) ==> !LoraFits(cfg, r, loras'))
    requires forall j :: 0 <= j < |v| && s0.running[j] in tokens ==>
               s0.running[j] in tokens' && tokens'[s0.running[j]] == tokens[s0.running[j]]
    requires DecodeEntry(cfg, c, s0.requests[s0.running[|v|]], s0.running[|v|], tokens', budget', loras')
    ensures DecodeEntries(cfg, s0, v + [c], tokens', budget', loras')
  {
    var v' := v + [c];
    forall j | 0 <= j < |v'|
      ensures DecodeEntry(cfg, v'[j], s0.requests[s0.running[j]], s0.running[j], tokens', budget', loras')
    {
      if j < |v| {
        assert DecodeEntry(cfg, v[j], s0.requests[s0.running[j]], s0.running[j], tokens, budget, loras);
      }
    }
  }

  /** The request under consideration gets nothing in this step. */
  lemma PassOverStep(cfg: Config, s0: State, s: State, v: seq<Verdict>, tokens: map<Id, int>, budget: int, loras: set<nat>)
    requires DecodeInv(cfg, s0, s, v, tokens, budget, loras) && budget > 0
    requires |v| < |s.running| && s.running[|v|] in s0.requests
    requires Want(cfg, s0.requests[s.running[|v|]]) == 0 || !LoraFits(cfg, s0.requests[s.running[|v|]], loras)
    ensures DecodeInv(cfg, s0, s, v + [Skip], tokens, budget, loras)
  {
    assert s.running[|v|] == s0.running[|v|];
    PickStep(s0.running, v, Skip, {New});
    assert Pick(s0.running, v + [Skip], {New}) == Pick(s0.running, v, {New});
    EntriesStep(cfg, s0, v, tokens, budget, loras, Skip, tokens, budget, loras);
  }

  lemma AddLoraKeepsFull(cfg: Config, r: Request, loras: set<nat>)
    requires LoraFits(cfg, r, loras) && (cfg.maxLoras.Some? ==> |loras| <= cfg.maxLoras.value)
    ensures loras <= AddLora(cfg, r, loras)
    ensures forall q :: !LoraFits(cfg, q, loras) ==> !LoraFits(cfg, q, AddLora(cfg, r, loras))
  {
    if cfg.maxLoras.Some? && r.lora.Some? && r.lora.value in loras {
      assert loras + {r.lora.value} == loras;
    }
  }

  lemma TakeStep(cfg: Config, s0: State, s: State, v: seq<Verdict>, tokens: map<Id, int>, budget: int, loras: set<nat>, n: int)
    requires DecodeInv(cfg, s0, s, v, tokens, budget, loras) && budget > 0 && Distinct(s0.running)
    requires |v| < |s.running| && s.running[|v|] in s0.requests
    requires var r := s0.requests[s.running[|v|]];
             LoraFits(cfg, r, loras) && n != 0 && n == if Want(cfg, r) <= budget then Want(cfg, r) else budget
    ensures var x := s.running[|v|];
            DecodeInv(cfg, s0, s.(scheduled := s.scheduled + {x}), v + [New], tokens[x := n], budget - n,
                      AddLora(cfg, s0.requests[x], loras))
  {
    var x := s.running[|v|];
    assert x == s0.running[|v|];
    PickStep(s0.running, v, New, {New});
    PickMembers(s0.running, v, {New}, x);
    IdsAppend(Pick(s0.running, v, {New}), x);
    AddLoraKeepsFull(cfg, s0.requests[x], loras);
    BudgetTake(cfg, Pick(s0.running, v, {New}), |s.running|, tokens, budget, loras, |s.running|, x, n, s0.requests[x]);
    EntriesStep(cfg, s0, v, tokens, budget, loras, New, tokens[x := n], budget - n, AddLora(cfg, s0.requests[x], loras));
  }
}
