/** Completion protocol of KV transfers: every decode rank reads a request's blocks, then signals its own
    rank 0 and, through some prefill rank, the prefill side's rank 0. */
module TransferProtocol {
  import opened Common
  import opened Sums
  import opened TaskTracker

  /** "Rank `rank` is done with `r`", to be handled at rank `at` of the counting side. */
  datatype Signal = Signal(r: Id, rank: int, at: nat)

  /** One counting side: signals sent, signals under way, rank 0's tracker, and requests reported so far. */
  datatype Side = Side(emitted: set<(Id, int)>, pending: seq<Signal>, tracker: Tracker, reported: multiset<Id>)

  datatype Net = Net(started: set<(Id, int)>, ended: set<(Id, int)>, receiver: Side, sender: Side)

  datatype Event =
    | Start(r: Id, rank: int)
    | End(r: Id, rank: int)
    | NotifyOwn(r: Id, rank: int)
    | SendDone(r: Id, rank: int, at: nat)
    | Handle(onSender: bool, i: nat)
    | Duplicate(onSender: bool, i: nat)
    | Collect(onSender: bool)

  function Emit(s: Side, r: Id, rank: int, at: nat): Side {
    s.(emitted := s.emitted + {(r, rank)}, pending := s.pending + [Signal(r, rank, at)])
  }

  /** `update_done_task_count` at rank `at`: count at rank 0, relay to rank 0 elsewhere. */
  function HandleAt(s: Side, target: nat, i: nat): Side
    requires i < |s.pending|
  {
    var m := s.pending[i];
    var rest := s.pending[..i] + s.pending[i + 1..];
    if m.at == 0 then s.(pending := rest, tracker := Increment(s.tracker, target, m.r, m.rank))
    else s.(pending := rest + [m.(at := 0)])
  }

  function CollectFrom(s: Side): Side {
    s.(reported := s.reported + multiset(s.tracker.finished), tracker := s.tracker.(finished := {}))
  }

  function Repeat(s: Side, i: nat): Side
    requires i < |s.pending|
  {
    s.(pending := s.pending + [s.pending[i]])
  }

  ghost predicate Next(target: nat, a: Net, e: Event, b: Net) {
    match e
    case Start(r, k) =>
      0 <= k < target && (r, k) !in a.started && b == a.(started := a.started + {(r, k)})
    case End(r, k) =>
      (r, k) in a.started && b == a.(ended := a.ended + {(r, k)})
    case NotifyOwn(r, k) =>
      0 <= k && (r, k) in a.ended && (r, k) !in a.receiver.emitted && b == a.(receiver := Emit(a.receiver, r, k, k))
    case SendDone(r, k, at) =>
      (r, k) in a.receiver.emitted && (r, k) !in a.sender.emitted && b == a.(sender := Emit(a.sender, r, k, at))
    case Handle(onSender, i) =>
      if onSender then i < |a.sender.pending| && b == a.(sender := HandleAt(a.sender, target, i))
      else i < |a.receiver.pending| && b == a.(receiver := HandleAt(a.receiver, target, i))
    case Duplicate(onSender, i) =>
      if onSender then i < |a.sender.pending| && b == a.(sender := Repeat(a.sender, i))
      else i < |a.receiver.pending| && b == a.(receiver := Repeat(a.receiver, i))
    case Collect(onSender) =>
      if onSender then b == a.(sender := CollectFrom(a.sender)) else b == a.(receiver := CollectFrom(a.receiver))
  }

  /* ----- Safety: nothing is reported before every rank has ended its transfer ----- */

  ghost predicate AllEmitted(s: Side, target: nat, r: Id) {
    forall k :: 0 <= k < target ==> (r, k) in s.emitted
  }

  ghost predicate SideSafe(s: Side, target: nat) {
    && TrackerOk(s.tracker, target)
    && (forall r, k :: (r, k) in s.emitted ==> 0 <= k < target)
    && (forall i :: 0 <= i < |s.pending| ==> (s.pending[i].r, s.pending[i].rank) in s.emitted)
    && (forall r: Id, k: int :: k in RanksOf(s.tracker, r) ==> (r, k) in s.emitted)
    && (forall r :: r in s.tracker.finished || r in s.reported ==> AllEmitted(s, target, r))
  }

  ghost predicate Safe(target: nat, a: Net) {
    && a.ended <= a.started
    && (forall r, k :: (r, k) in a.started ==> 0 <= k < target)
    && a.receiver.emitted <= a.ended && a.sender.emitted <= a.receiver.emitted
    && SideSafe(a.receiver, target) && SideSafe(a.sender, target)
  }

  lemma EmitSafe(s: Side, target: nat, r: Id, rank: int, at: nat)
    requires SideSafe(s, target) && 0 <= rank < target
    ensures SideSafe(Emit(s, r, rank, at), target)
  {
  }

  lemma RepeatSafe(s: Side, target: nat, i: nat)
    requires SideSafe(s, target) && i < |s.pending|
    ensures SideSafe(Repeat(s, i), target)
  {
  }

  lemma CollectSafe(s: Side, target: nat)
    requires SideSafe(s, target)
    ensures SideSafe(CollectFrom(s), target)
  {
  }

  /** Signals left after handling the i-th one, and a relayed copy of it at the end. */
  lemma RestPending(p: seq<Signal>, i: nat, j: nat) returns (k: nat)
    requires i < |p| && j < |p| - 1
    ensures k < |p| && k != i && (p[..i] + p[i + 1..])[j] == p[k]
  {
    k := if j < i then j else j + 1;
  }

  lemma CountSafe(s: Side, target: nat, r: Id, rank: int, rest: seq<Signal>)
    requires SideSafe(s, target) && (r, rank) in s.emitted
    requires forall j :: 0 <= j < |rest| ==> (rest[j].r, rest[j].rank) in s.emitted
    ensures SideSafe(s.(pending := rest, tracker := Increment(s.tracker, target, r, rank)), target)
  {
    var t' := Increment(s.tracker, target, r, rank);
    IncrementFacts(s.tracker, target, r, rank, t');
    if RanksOf(s.tracker, r) + {rank} == Range(target) {
      forall k | 0 <= k < target ensures (r, k) in s.emitted {
        assert k in RanksOf(s.tracker, r) + {rank};
      }
    }
  }

  lemma HandleSafe(s: Side, target: nat, i: nat)
    requires SideSafe(s, target) && i < |s.pending|
    ensures SideSafe(HandleAt(s, target, i), target)
  {
    var m, rest := s.pending[i], s.pending[..i] + s.pending[i + 1..];
    forall j | 0 <= j < |rest| ensures (rest[j].r, rest[j].rank) in s.emitted {
      var k := RestPending(s.pending, i, j);
    }
    if m.at == 0 {
      CountSafe(s, target, m.r, m.rank, rest);
    }
  }

  lemma NextSafe(target: nat, a: Net, e: Event, b: Net)
    requires Safe(target, a) && Next(target, a, e, b)
    ensures Safe(target, b)
  {
    match e
    case Start(_, _) =>
    case End(_, _) =>
    case NotifyOwn(r, k) => EmitSafe(a.receiver, target, r, k, k);
    case SendDone(r, k, at) => EmitSafe(a.sender, target, r, k, at);
    case Handle(onSender, i) => HandleSafe(if onSender then a.sender else a.receiver, target, i);
    case Duplicate(onSender, i) => RepeatSafe(if onSender then a.sender else a.receiver, target, i);
    case Collect(onSender) => CollectSafe(if onSender then a.sender else a.receiver, target);
  }

  const IDLE := Side({}, [], Tracker(map[], {}), multiset{})

  ghost predicate IsRun(target: nat, run: seq<Net>, events: seq<Event>) {
    && |run| == |events| + 1 && run[0] == Net({}, {}, IDLE, IDLE)
    && forall i :: 0 <= i < |events| ==> Next(target, run[i], events[i], run[i + 1])
  }

  lemma {:induction false} RunStaysSafe(target: nat, run: seq<Net>, events: seq<Event>, i: nat)
    requires IsRun(target, run, events) && i < |run|
    ensures Safe(target, run[i])
  {
    if i > 0 {
      RunStaysSafe(target, run, events, i - 1);
      NextSafe(target, run[i - 1], events[i - 1], run[i]);
    }
  }

  /** In every run, even with repeated signals: once either side reports a request, every rank has ended its
      transfer, so blocks freed on the report are no longer read. */
  lemma ReportedOnlyAfterAllRanks(target: nat, run: seq<Net>, events: seq<Event>, i: nat, r: Id, k: int)
    requires IsRun(target, run, events) && i < |run| && 0 <= k < target
    requires r in run[i].sender.reported || r in run[i].receiver.reported
    ensures (r, k) in run[i].started && (r, k) in run[i].ended
  {
    RunStaysSafe(target, run, events, i);
    if r in run[i].sender.reported {
      assert AllEmitted(run[i].sender, target, r);
    } else {
      assert AllEmitted(run[i].receiver, target, r);
    }
  }
}
