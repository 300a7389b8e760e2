/** How often the completion protocol reports a request when signals may be repeated. */
module TransferOnce {
  import opened Common
  import opened Sums
  import opened TaskTracker
  import opened TransferProtocol

  function SideOf(a: Net, onSender: bool): Side {
    if onSender then a.sender else a.receiver
  }

  /** Signals about `(r, k)` still under way. */
  function UnderWay(p: seq<Signal>, r: Id, k: int): nat {
    if p == [] then 0
    else UnderWay(p[..|p| - 1], r, k) + (if IsAbout(p[|p| - 1], r, k) then 1 else 0)
  }

  predicate IsAbout(m: Signal, r: Id, k: int) {
    m.r == r && m.rank == k
  }

  /** How often the request has been completed: collected reports plus one not collected yet. */
  function Completions(s: Side, r: Id): nat {
    s.reported[r] + (if r in s.tracker.finished then 1 else 0)
  }

  lemma UnderWayAppend(p: seq<Signal>, m: Signal, r: Id, k: int)
    ensures UnderWay(p + [m], r, k) == UnderWay(p, r, k) + (if IsAbout(m, r, k) then 1 else 0)
  {
    assert (p + [m])[..|p|] == p;
  }

  lemma {:induction false} UnderWayRemove(p: seq<Signal>, i: nat, r: Id, k: int)
    requires i < |p|
    ensures UnderWay(p, r, k) == UnderWay(p[..i] + p[i + 1..], r, k) + (if IsAbout(p[i], r, k) then 1 else 0)
  {
    var n := |p| - 1;
    if i == n {
      assert p[..i] + p[i + 1..] == p[..n];
    } else {
      UnderWayRemove(p[..n], i, r, k);
      assert p[..n][..i] + p[..n][i + 1..] + [p[n]] == p[..i] + p[i + 1..];
      UnderWayAppend(p[..n][..i] + p[..n][i + 1..], p[n], r, k);
    }
  }

  /** The channel after handling the i-th signal: without it, or with its relayed copy. */
  lemma UnderWayHandled(s: Side, target: nat, i: nat, r: Id, k: int)
    requires i < |s.pending|
    ensures UnderWay(HandleAt(s, target, i).pending, r, k)
         == UnderWay(s.pending, r, k) - (if s.pending[i].at == 0 && IsAbout(s.pending[i], r, k) then 1 else 0)
  {
    var m, rest := s.pending[i], s.pending[..i] + s.pending[i + 1..];
    UnderWayRemove(s.pending, i, r, k);
    UnderWayAppend(rest, m.(at := 0), r, k);
  }

  lemma CollectKeepsCompletions(s: Side, r: Id)
    ensures Completions(CollectFrom(s), r) == Completions(s, r)
  {
  }

  /* ----- A signal sent once ----- */

  /** The signal is in exactly one place: under way, counted, or part of the only completion. */
  ghost predicate Accounted(s: Side, r: Id, k: int) {
    UnderWay(s.pending, r, k) + (if k in RanksOf(s.tracker, r) then 1 else 0) + Completions(s, r)
    == if (r, k) in s.emitted then 1 else 0
  }

  /** Counting any signal, this one or another, keeps the account of `(q, k)`. */
  lemma CountAccounted(s: Side, target: nat, i: nat, q: Id, k: int)
    requires SideSafe(s, target) && i < |s.pending| && s.pending[i].at == 0
    requires 0 <= k < target && Accounted(s, q, k)
    ensures Accounted(HandleAt(s, target, i), q, k)
  {
    var m, s' := s.pending[i], HandleAt(s, target, i);
    assert (m.r, m.rank) in s.emitted;
    IncrementFacts(s.tracker, target, m.r, m.rank, s'.tracker);
    UnderWayHandled(s, target, i, q, k);
    if q == m.r {
      assert k in RanksOf(s.tracker, q) + {m.rank} <==> k in RanksOf(s.tracker, q) || k == m.rank;
    }
  }

  lemma HandleAccounted(s: Side, target: nat, i: nat, q: Id, k: int)
    requires SideSafe(s, target) && i < |s.pending| && 0 <= k < target && Accounted(s, q, k)
    ensures Accounted(HandleAt(s, target, i), q, k)
  {
    if s.pending[i].at == 0 {
      CountAccounted(s, target, i, q, k);
    } else {
      UnderWayHandled(s, target, i, q, k);
    }
  }

  /** The event repeats the signal of rank `k` about `q`. */
  ghost predicate Repeats(a: Net, e: Event, onSender: bool, q: Id, k: int) {
    e.Duplicate? && e.onSender == onSender && e.i < |SideOf(a, onSender).pending|
    && IsAbout(SideOf(a, onSender).pending[e.i], q, k)
  }

  /** Every step that does not repeat this very signal keeps its account, whatever else is repeated. */
  lemma NextAccounted(target: nat, a: Net, e: Event, b: Net, onSender: bool, q: Id, k: int)
    requires Safe(target, a) && Next(target, a, e, b) && 0 <= k < target
    requires Accounted(SideOf(a, onSender), q, k) && !Repeats(a, e, onSender, q, k)
    ensures Accounted(SideOf(b, onSender), q, k)
  {
    var s := SideOf(a, onSender);
    match e
    case Start(_, _) =>
    case End(_, _) =>
    case NotifyOwn(r, j) => UnderWayAppend(s.pending, Signal(r, j, j), q, k);
    case SendDone(r, j, at) => UnderWayAppend(s.pending, Signal(r, j, at), q, k);
    case Handle(on, i) => if on == onSender { HandleAccounted(s, target, i, q, k); }
    case Duplicate(on, i) => if on == onSender { UnderWayAppend(s.pending, s.pending[i], q, k); }
    case Collect(on) => CollectKeepsCompletions(s, q);
  }

  /** Up to state `i`, rank `k`'s signal about `q` is never repeated. */
  ghost predicate NeverRepeated(run: seq<Net>, events: seq<Event>, onSender: bool, q: Id, k: int, i: nat)
    requires i <= |events| && i <= |run|
  {
    forall j :: 0 <= j < i ==> !Repeats(run[j], events[j], onSender, q, k)
  }

  lemma {:induction false} RunAccounted(target: nat, run: seq<Net>, events: seq<Event>, onSender: bool, q: Id, k: int, i: nat)
    requires IsRun(target, run, events) && i < |run| && 0 <= k < target
    requires NeverRepeated(run, events, onSender, q, k, i)
    ensures Accounted(SideOf(run[i], onSender), q, k)
  {
    if i == 0 {
      assert Accounted(IDLE, q, k);
    } else {
      RunAccounted(target, run, events, onSender, q, k, i - 1);
      RunStaysSafe(target, run, events, i - 1);
      NextAccounted(target, run[i - 1], events[i - 1], run[i], onSender, q, k);
    }
  }

  /* ----- At least once ----- */

  /** A signal sent is not lost: it is under way, counted, or its request has been completed. */
  ghost predicate Landed(s: Side, r: Id, k: int) {
    (r, k) in s.emitted ==> UnderWay(s.pending, r, k) > 0 || k in RanksOf(s.tracker, r) || Completions(s, r) > 0
  }

  lemma HandleLanded(s: Side, target: nat, i: nat, q: Id, k: int)
    requires SideSafe(s, target) && i < |s.pending| && Landed(s, q, k)
    ensures Landed(HandleAt(s, target, i), q, k)
  {
    UnderWayHandled(s, target, i, q, k);
    if s.pending[i].at == 0 {
      var m := s.pending[i];
      assert (m.r, m.rank) in s.emitted;
      IncrementLands(s.tracker, target, m.r, m.rank, q, k);
      assert CompletionsGrow(s, HandleAt(s, target, i), q);
    }
  }

  /** Completions are never taken back. */
  ghost predicate CompletionsGrow(s: Side, s': Side, q: Id) {
    Completions(s, q) <= Completions(s', q)
  }

  /** A rank counted, or being counted, stays counted unless its request completes. */
  lemma IncrementLands(t: Tracker, target: nat, r: Id, rank: int, q: Id, k: int)
    requires TrackerOk(t, target) && 0 <= rank < target
    ensures t.finished <= Increment(t, target, r, rank).finished
    ensures k in RanksOf(t, q) || (q == r && k == rank) ==>
              k in RanksOf(Increment(t, target, r, rank), q) || q in Increment(t, target, r, rank).finished
  {
    IncrementFacts(t, target, r, rank, Increment(t, target, r, rank));
    assert k in RanksOf(t, r) + {rank} <==> k in RanksOf(t, r) || k == rank;
  }

  lemma NextLanded(target: nat, a: Net, e: Event, b: Net, onSender: bool, q: Id, k: int)
    requires Safe(target, a) && Next(target, a, e, b) && Landed(SideOf(a, onSender), q, k)
    ensures Landed(SideOf(b, onSender), q, k)
  {
    var s := SideOf(a, onSender);
    match e
    case Start(_, _) =>
    case End(_, _) =>
    case NotifyOwn(r, j) => UnderWayAppend(s.pending, Signal(r, j, j), q, k);
    case SendDone(r, j, at) => UnderWayAppend(s.pending, Signal(r, j, at), q, k);
    case Handle(on, i) => if on == onSender { HandleLanded(s, target, i, q, k); }
    case Duplicate(on, i) => if on == onSender { UnderWayAppend(s.pending, s.pending[i], q, k); }
    case Collect(on) => CollectKeepsCompletions(s, q);
  }

  lemma {:induction false} RunLanded(target: nat, run: seq<Net>, events: seq<Event>, onSender: bool, q: Id, k: int, i: nat)
    requires IsRun(target, run, events) && i < |run|
    ensures Landed(SideOf(run[i], onSender), q, k)
  {
    if i > 0 {
      RunLanded(target, run, events, onSender, q, k, i - 1);
      RunStaysSafe(target, run, events, i - 1);
      NextLanded(target, run[i - 1], events[i - 1], run[i], onSender, q, k);
    }
  }

  /** A request all of whose signals have arrived has been completed. */
  lemma AllLanded(s: Side, target: nat, r: Id)
    requires SideSafe(s, target) && s.pending == [] && target > 0 && AllEmitted(s, target, r)
    requires forall k :: 0 <= k < target ==> Landed(s, r, k)
    ensures Completions(s, r) >= 1
  {
    var k := MissingRank(s.tracker, target, r);
    assert Landed(s, r, k);
  }

  /** Some rank of an unfinished request has not been counted. */
  lemma MissingRank(t: Tracker, target: nat, r: Id) returns (k: int)
    requires TrackerOk(t, target) && target > 0
    ensures 0 <= k < target && k !in RanksOf(t, r)
  {
    AllRanks(RanksOf(t, r), target);
    assert RanksOf(t, r) != Range(target) && RanksOf(t, r) <= Range(target);
    k :| k in Range(target) && k !in RanksOf(t, r);
  }

  /** In every run, whatever is repeated: once every rank has signalled and the channel is empty, the request has
      been reported. And if some rank's signal was not repeated, it has been reported no more than once. */
  lemma ReportedExactlyOnce(target: nat, run: seq<Net>, events: seq<Event>, onSender: bool, r: Id, i: nat)
    requires target > 0 && IsRun(target, run, events) && i < |run|
    ensures var s := SideOf(run[i], onSender);
            s.pending == [] && AllEmitted(s, target, r) ==> Completions(s, r) >= 1
    ensures (exists k :: 0 <= k < target && NeverRepeated(run, events, onSender, r, k, i)) ==>
              Completions(SideOf(run[i], onSender), r) <= 1
  {
    var s := SideOf(run[i], onSender);
    RunStaysSafe(target, run, events, i);
    if s.pending == [] && AllEmitted(s, target, r) {
      forall k | 0 <= k < target ensures Landed(s, r, k) {
        RunLanded(target, run, events, onSender, r, k, i);
      }
      AllLanded(s, target, r);
    }
    if k :| 0 <= k < target && NeverRepeated(run, events, onSender, r, k, i) {
      RunAccounted(target, run, events, onSender, r, k, i);
    }
  }

  /* ----- All signals repeated: a run that reports twice ----- */

  function WithSide(a: Net, onSender: bool, s: Side): Net {
    if onSender then a.(sender := s) else a.(receiver := s)
  }

  lemma ExtendRun(target: nat, run: seq<Net>, events: seq<Event>, e: Event, b: Net)
    requires IsRun(target, run, events) && Next(target, run[|run| - 1], e, b)
    ensures IsRun(target, run + [b], events + [e])
  {
    var run', events' := run + [b], events + [e];
    forall i | 0 <= i < |events'| ensures Next(target, run'[i], events'[i], run'[i + 1]) {
      if i < |events| { assert Next(target, run[i], events[i], run[i + 1]); }
    }
  }

  /** Handles signal `j` of one side as the next step of a run. */
  lemma HandleNext(target: nat, run: seq<Net>, events: seq<Event>, onSender: bool, j: nat)
    returns (run': seq<Net>, events': seq<Event>)
    requires IsRun(target, run, events) && j < |SideOf(run[|run| - 1], onSender).pending|
    ensures IsRun(target, run', events')
    ensures run'[|run'| - 1] == WithSide(run[|run| - 1], onSender, HandleAt(SideOf(run[|run| - 1], onSender), target, j))
  {
    var a := run[|run| - 1];
    var b := WithSide(a, onSender, HandleAt(SideOf(a, onSender), target, j));
    ExtendRun(target, run, events, Handle(onSender, j), b);
    run', events' := run + [b], events + [Handle(onSender, j)];
  }

  /** Delivers signal `j` to rank 0 and has it counted: one step, or two if it is to be relayed. */
  function Deliver(s: Side, target: nat, j: nat): Side
    requires j < |s.pending|
  {
    var s1 := HandleAt(s, target, j);
    if s.pending[j].at == 0 then s1 else HandleAt(s1, target, |s1.pending| - 1)
  }

  lemma DeliverIs(s: Side, target: nat, j: nat)
    requires j < |s.pending|
    ensures Deliver(s, target, j) == s.(pending := s.pending[..j] + s.pending[j + 1..],
                                        tracker := Increment(s.tracker, target, s.pending[j].r, s.pending[j].rank))
  {
    var rest := s.pending[..j] + s.pending[j + 1..];
    assert (rest + [s.pending[j].(at := 0)])[..|rest|] == rest;
  }

  lemma DeliverNext(target: nat, run: seq<Net>, events: seq<Event>, onSender: bool, j: nat)
    returns (run': seq<Net>, events': seq<Event>)
    requires IsRun(target, run, events) && j < |SideOf(run[|run| - 1], onSender).pending|
    ensures IsRun(target, run', events')
    ensures run'[|run'| - 1] == WithSide(run[|run| - 1], onSender, Deliver(SideOf(run[|run| - 1], onSender), target, j))
  {
    var s := SideOf(run[|run| - 1], onSender);
    run', events' := HandleNext(target, run, events, onSender, j);
    if s.pending[j].at != 0 {
      run', events' := HandleNext(target, run', events', onSender, |s.pending| - 1);
    }
  }

  /** Nothing about `r` has happened at rank `n` or later. */
  ghost predicate FreshFrom(a: Net, r: Id, n: nat) {
    forall k :: k >= n ==> (r, k) !in a.started && (r, k) !in a.receiver.emitted && (r, k) !in a.sender.emitted
  }

  /** Rank `n` transfers and signals. */
  lemma SignalNext(target: nat, run: seq<Net>, events: seq<Event>, onSender: bool, r: Id, n: nat)
    returns (run': seq<Net>, events': seq<Event>)
    requires IsRun(target, run, events) && n < target && FreshFrom(run[|run| - 1], r, n)
    ensures IsRun(target, run', events') && FreshFrom(run'[|run'| - 1], r, n + 1)
    ensures SideOf(run'[|run'| - 1], onSender) == Emit(SideOf(run[|run| - 1], onSender), r, n, n)
  {
    var a := run[|run| - 1];
    var b := a.(started := a.started + {(r, n)});
    ExtendRun(target, run, events, Start(r, n), b);
    var c := b.(ended := b.ended + {(r, n)});
    ExtendRun(target, run + [b], events + [Start(r, n)], End(r, n), c);
    run', events' := run + [b] + [c], events + [Start(r, n)] + [End(r, n)];
    var d := c.(receiver := Emit(c.receiver, r, n, n));
    ExtendRun(target, run', events', NotifyOwn(r, n), d);
    run', events' := run' + [d], events' + [NotifyOwn(r, n)];
    if onSender {
      var e := d.(sender := Emit(d.sender, r, n, n));
      ExtendRun(target, run', events', SendDone(r, n, n), e);
      run', events' := run' + [e], events' + [SendDone(r, n, n)];
    }
  }

  /** The signals of ranks `from..to-1`, each still at its own rank. */
  function Copies(r: Id, from: nat, to: nat): (p: seq<Signal>)
    requires from <= to
    ensures |p| == to - from && forall j :: 0 <= j < |p| ==> p[j] == Signal(r, from + j, from + j)
  {
    seq(to - from, j requires 0 <= j < to - from => Signal(r, from + j, from + j))
  }

  /** The tracker once the first `n` ranks have been counted. */
  ghost function Counted(target: nat, r: Id, n: nat): Tracker {
    if n == 0 then Tracker(map[], {})
    else if n < target then Tracker(map[r := Range(n)], {})
    else Tracker(map[], {r})
  }

  lemma CountedNext(target: nat, r: Id, n: nat)
    requires n < target
    ensures Increment(Counted(target, r, n), target, r, n) == Counted(target, r, n + 1)
  {
    CountedRanks(target, r, n);
    OneCount(Counted(target, r, n).counts, r, Range(n + 1));
  }

  lemma OneCount(counts: map<Id, set<int>>, r: Id, ranks: set<int>)
    requires counts.Keys <= {r}
    ensures counts - {r} == map[] && counts[r := ranks] == map[r := ranks]
  {
  }

  lemma CountedRanks(target: nat, r: Id, n: nat)
    requires n < target
    ensures var ranks := RanksOf(Counted(target, r, n), r);
            n !in ranks && ranks + {n} == Range(n + 1) && |ranks + {n}| == n + 1
  {
  }

  /** Rank `n` signals, its signal is repeated, and one copy is delivered. */
  lemma SideTwice(s: Side, target: nat, r: Id, n: nat)
    requires n < target && s.pending == Copies(r, 0, n) && s.tracker == Counted(target, r, n)
    ensures var s1 := Repeat(Emit(s, r, n, n), n);
            && s1.pending == Copies(r, 0, n + 1) + [Signal(r, n, n)]
            && Deliver(s1, target, n).pending == Copies(r, 0, n + 1)
            && Deliver(s1, target, n).tracker == Counted(target, r, n + 1)
            && Deliver(s1, target, n).reported == s.reported
  {
    var s1 := Repeat(Emit(s, r, n, n), n);
    assert Emit(s, r, n, n).pending == Copies(r, 0, n + 1);
    DeliverIs(s1, target, n);
    assert s1.pending[..n] + s1.pending[n + 1..] == Copies(r, 0, n + 1);
    CountedNext(target, r, n);
  }

  /** Repeats signal `j` of one side as the next step of a run. */
  lemma RepeatNext(target: nat, run: seq<Net>, events: seq<Event>, onSender: bool, j: nat)
    returns (run': seq<Net>, events': seq<Event>)
    requires IsRun(target, run, events) && j < |SideOf(run[|run| - 1], onSender).pending|
    ensures IsRun(target, run', events')
    ensures run'[|run'| - 1] == WithSide(run[|run| - 1], onSender, Repeat(SideOf(run[|run| - 1], onSender), j))
  {
    var a := run[|run| - 1];
    var b := WithSide(a, onSender, Repeat(SideOf(a, onSender), j));
    ExtendRun(target, run, events, Duplicate(onSender, j), b);
    run', events' := run + [b], events + [Duplicate(onSender, j)];
  }

  /** Counted the first `n` ranks, with `p` under way and `reports` handed out. */
  ghost predicate Stands(s: Side, target: nat, r: Id, n: nat, p: seq<Signal>, reports: multiset<Id>) {
    s.pending == p && s.tracker == Counted(target, r, n) && s.reported == reports
  }

  /** Rank `n` transfers, signals twice, and is counted once. */
  lemma FirstRoundStep(target: nat, run: seq<Net>, events: seq<Event>, onSender: bool, r: Id, n: nat)
    returns (run': seq<Net>, events': seq<Event>)
    requires IsRun(target, run, events) && n < target && FreshFrom(run[|run| - 1], r, n)
    requires Stands(SideOf(run[|run| - 1], onSender), target, r, n, Copies(r, 0, n), multiset{})
    ensures IsRun(target, run', events') && FreshFrom(run'[|run'| - 1], r, n + 1)
    ensures Stands(SideOf(run'[|run'| - 1], onSender), target, r, n + 1, Copies(r, 0, n + 1), multiset{})
  {
    SideTwice(SideOf(run[|run| - 1], onSender), target, r, n);
    run', events' := SignalNext(target, run, events, onSender, r, n);
    var a := run'[|run'| - 1];
    run', events' := RepeatNext(target, run', events', onSender, n);
    run', events' := DeliverNext(target, run', events', onSender, n);
    FreshKept(a, onSender, Deliver(Repeat(SideOf(a, onSender), n), target, n), target, r, n + 1);
  }

  lemma FreshKept(a: Net, onSender: bool, s: Side, target: nat, r: Id, n: nat)
    requires FreshFrom(a, r, n) && s.emitted == SideOf(a, onSender).emitted
    ensures FreshFrom(WithSide(a, onSender, s), r, n)
  {
  }

  /** The first `n` ranks have each signalled twice and been counted once. */
  lemma {:induction false} FirstRound(target: nat, onSender: bool, r: Id, n: nat)
    returns (run: seq<Net>, events: seq<Event>)
    requires n <= target
    ensures IsRun(target, run, events) && FreshFrom(run[|run| - 1], r, n)
    ensures Stands(SideOf(run[|run| - 1], onSender), target, r, n, Copies(r, 0, n), multiset{})
  {
    if n == 0 {
      run, events := [Net({}, {}, IDLE, IDLE)], [];
    } else {
      run, events := FirstRound(target, onSender, r, n - 1);
      run, events := FirstRoundStep(target, run, events, onSender, r, n - 1);
    }
  }

  /** The report is collected. */
  lemma CollectNext(target: nat, run: seq<Net>, events: seq<Event>, onSender: bool, r: Id)
    returns (run': seq<Net>, events': seq<Event>)
    requires IsRun(target, run, events) && target > 0
    requires Stands(SideOf(run[|run| - 1], onSender), target, r, target, Copies(r, 0, target), multiset{})
    ensures IsRun(target, run', events')
    ensures Stands(SideOf(run'[|run'| - 1], onSender), target, r, 0, Copies(r, 0, target), multiset{r})
  {
    var a := run[|run| - 1];
    var b := WithSide(a, onSender, CollectFrom(SideOf(a, onSender)));
    ExtendRun(target, run, events, Collect(onSender), b);
    run', events' := run + [b], events + [Collect(onSender)];
    assert multiset({r}) == multiset{r};
  }

  /** The repeated signal of rank `n` is delivered. */
  lemma SecondRoundStep(s: Side, target: nat, r: Id, n: nat)
    requires n < target && Stands(s, target, r, n, Copies(r, n, target), multiset{r})
    ensures Stands(Deliver(s, target, 0), target, r, n + 1, Copies(r, n + 1, target), multiset{r})
  {
    DeliverIs(s, target, 0);
    CountedNext(target, r, n);
    assert s.pending[..0] + s.pending[1..] == Copies(r, n + 1, target);
  }

  /** After the first report, the repeated signals of the first `n` ranks are delivered. */
  lemma {:induction false} SecondRound(target: nat, onSender: bool, r: Id, n: nat)
    returns (run: seq<Net>, events: seq<Event>)
    requires n <= target && target > 0
    ensures IsRun(target, run, events)
    ensures Stands(SideOf(run[|run| - 1], onSender), target, r, n, Copies(r, n, target), multiset{r})
  {
    if n == 0 {
      run, events := FirstRound(target, onSender, r, target);
      run, events := CollectNext(target, run, events, onSender, r);
    } else {
      run, events := SecondRound(target, onSender, r, n - 1);
      SecondRoundStep(SideOf(run[|run| - 1], onSender), target, r, n - 1);
      run, events := DeliverNext(target, run, events, onSender, 0);
    }
  }

  /** With every rank's signal repeated, a run of the protocol completes the request twice. */
  lemma RepeatedSignalsReportTwice(target: nat, onSender: bool, r: Id) returns (run: seq<Net>, events: seq<Event>)
    requires target > 0
    ensures IsRun(target, run, events) && Completions(SideOf(run[|run| - 1], onSender), r) == 2
  {
    run, events := SecondRound(target, onSender, r, target);
  }

  /** Signals about `r` are repeated for ranks in `repeated` only. */
  ghost predicate RepeatsOnly(run: seq<Net>, events: seq<Event>, onSender: bool, r: Id, repeated: set<int>)
    requires |events| <= |run|
  {
    forall j, k :: 0 <= j < |events| && Repeats(run[j], events[j], onSender, r, k) ==> k in repeated
  }

  /** No run with these repetitions completes `r` more than once. */
  ghost predicate NeverTwice(target: nat, onSender: bool, r: Id, repeated: set<int>) {
    forall run, events, i :: IsRun(target, run, events) && RepeatsOnly(run, events, onSender, r, repeated) && 0 <= i < |run| ==>
      Completions(SideOf(run[i], onSender), r) <= 1
  }

  /** Which ranks' signals may be repeated: once-only reporting of `r` is safe exactly when at least one rank's signal
      is not among them. */
  lemma OnceIffSomeRankIsNotRepeated(target: nat, onSender: bool, r: Id, repeated: set<int>)
    requires target > 0
    ensures NeverTwice(target, onSender, r, repeated) <==> exists k :: 0 <= k < target && k !in repeated
  {
    if k :| 0 <= k < target && k !in repeated {
      forall run, events, i | IsRun(target, run, events) && RepeatsOnly(run, events, onSender, r, repeated) && 0 <= i < |run|
        ensures Completions(SideOf(run[i], onSender), r) <= 1
      {
        assert NeverRepeated(run, events, onSender, r, k, i);
        ReportedExactlyOnce(target, run, events, onSender, r, i);
      }
    } else {
      var run, events := RepeatedSignalsReportTwice(target, onSender, r);
      RanksInRange(target, run, events, onSender, r, repeated);
      assert Completions(SideOf(run[|run| - 1], onSender), r) > 1;
    }
  }

  lemma RanksInRange(target: nat, run: seq<Net>, events: seq<Event>, onSender: bool, r: Id, repeated: set<int>)
    requires IsRun(target, run, events) && forall k :: 0 <= k < target ==> k in repeated
    ensures RepeatsOnly(run, events, onSender, r, repeated)
  {
    forall j, k | 0 <= j < |events| && Repeats(run[j], events[j], onSender, r, k) ensures k in repeated {
      RunStaysSafe(target, run, events, j);
      assert (r, k) in SideOf(run[j], onSender).emitted;
    }
  }
}
