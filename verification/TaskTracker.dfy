/** `KVCacheTaskTracker`: counts, per request, the ranks that have signalled completion. */
module TaskTracker {
  import opened Common
  import opened Sums

  /** Ranks heard of so far per unfinished request, and requests complete but not collected. */
  datatype Tracker = Tracker(counts: map<Id, set<int>>, finished: set<Id>)

  function RanksOf(t: Tracker, r: Id): set<int> {
    if r in t.counts then t.counts[r] else {}
  }

  /** One completion signal; a rank already counted is ignored, the last missing one completes the request. */
  function Increment(t: Tracker, target: nat, r: Id, rank: int): Tracker {
    var ranks := RanksOf(t, r) + {rank};
    if rank in RanksOf(t, r) then t
    else if |ranks| == target then Tracker(t.counts - {r}, t.finished + {r})
    else Tracker(t.counts[r := ranks], t.finished)
  }

  class KVCacheTaskTracker {
    const tpRank: nat
    const targetCount: nat
    var doneTaskCounts: map<Id, set<int>>
    var finishedRequests: set<Id>
    /** Signals pushed to the tracker of rank 0. */
    var pushed: seq<(Id, int)>

    ghost function View(): Tracker
      reads this
    {
      Tracker(doneTaskCounts, finishedRequests)
    }

    constructor (tpRank: nat, targetCount: nat)
      ensures this.tpRank == tpRank && this.targetCount == targetCount
      ensures View() == Tracker(map[], {}) && pushed == []
    {
      this.tpRank, this.targetCount := tpRank, targetCount;
      doneTaskCounts, finishedRequests, pushed := map[], {}, [];
    }

    method IncrementTaskCount(r: Id, rank: int)
      modifies this`doneTaskCounts, this`finishedRequests
      ensures View() == Increment(old(View()), targetCount, r, rank)
    {
      if r in doneTaskCounts && rank in doneTaskCounts[r] {
        return;
      }
      var ranks := if r in doneTaskCounts then doneTaskCounts[r] + {rank} else {rank};
      assert ranks == RanksOf(View(), r) + {rank};
      if |ranks| == targetCount {
        finishedRequests := finishedRequests + {r};
        doneTaskCounts := doneTaskCounts - {r};
      } else {
        doneTaskCounts := doneTaskCounts[r := ranks];
      }
    }

    /** Rank 0 counts the signal itself, any other rank pushes it to rank 0. */
    method UpdateDoneTaskCount(r: Id, rank: int)
      modifies this
      ensures tpRank == 0 ==> View() == Increment(old(View()), targetCount, r, rank) && pushed == old(pushed)
      ensures tpRank != 0 ==> View() == old(View()) && pushed == old(pushed) + [(r, rank)]
    {
      if tpRank == 0 {
        IncrementTaskCount(r, rank);
      } else {
        pushed := pushed + [(r, rank)];
      }
    }

    method GetAndClearFinishedRequests() returns (done: set<Id>)
      modifies this`finishedRequests
      ensures done == old(finishedRequests)
      ensures View() == Tracker(old(doneTaskCounts), {})
    {
      done := finishedRequests;
      finishedRequests := {};
    }
  }

  /** While signals come from ranks 0..target-1, an unfinished request misses at least one of them. */
  ghost predicate TrackerOk(t: Tracker, target: nat) {
    forall r :: r in t.counts ==> |t.counts[r]| < target && forall k :: k in t.counts[r] ==> 0 <= k < target
  }

  /** A set of ranks has `target` members exactly when it is all of them. */
  lemma AllRanks(ranks: set<int>, target: nat)
    requires forall k :: k in ranks ==> 0 <= k < target
    ensures |ranks| <= target
    ensures |ranks| == target <==> ranks == Range(target)
  {
    assert ranks <= Range(target);
    assert Range(target) == ranks + (Range(target) - ranks);
  }

  /** What a signal does, by whether it is the last missing one. */
  lemma IncrementCases(t: Tracker, target: nat, r: Id, rank: int)
    requires TrackerOk(t, target) && 0 <= rank < target
    ensures RanksOf(t, r) + {rank} == Range(target) ==>
              Increment(t, target, r, rank) == Tracker(t.counts - {r}, t.finished + {r})
    ensures RanksOf(t, r) + {rank} != Range(target) ==>
              && RanksOf(Increment(t, target, r, rank), r) == RanksOf(t, r) + {rank}
              && Increment(t, target, r, rank).finished == t.finished
  {
    var ranks := RanksOf(t, r) + {rank};
    AllRanks(ranks, target);
    if rank in RanksOf(t, r) {
      assert ranks == RanksOf(t, r) == t.counts[r];
    }
  }

  lemma IncrementCounts(t: Tracker, target: nat, r: Id, rank: int, t': Tracker)
    requires TrackerOk(t, target) && 0 <= rank < target && t' == Increment(t, target, r, rank)
    ensures TrackerOk(t', target)
  {
    var ranks := RanksOf(t, r) + {rank};
    AllRanks(ranks, target);
    forall q | q in t'.counts ensures |t'.counts[q]| < target && forall k :: k in t'.counts[q] ==> 0 <= k < target {
      if q == r && rank !in RanksOf(t, r) {
        assert t'.counts[q] == ranks;
      } else {
        assert t'.counts[q] == t.counts[q];
      }
    }
  }

  /** A signal completes its request exactly when all the other ranks had signalled before. */
  lemma IncrementFacts(t: Tracker, target: nat, r: Id, rank: int, t': Tracker)
    requires TrackerOk(t, target) && 0 <= rank < target && t' == Increment(t, target, r, rank)
    ensures TrackerOk(t', target)
    ensures forall q :: q != r ==> RanksOf(t', q) == RanksOf(t, q)
    ensures if RanksOf(t, r) + {rank} == Range(target)
            then t'.finished == t.finished + {r} && RanksOf(t', r) == {}
            else t'.finished == t.finished && RanksOf(t', r) == RanksOf(t, r) + {rank}
  {
    IncrementCounts(t, target, r, rank, t');
    IncrementCases(t, target, r, rank);
  }
}
