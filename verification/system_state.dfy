/**
 The process-wide state of src/main.c (the bin list `head`, the routine
 queue `front`/`rear`, the urgent queue `priorityfront`/`priorityrear` and
 the static `lastDispatchSummary`) as one immutable record, with the
 invariant every operation keeps.
 */
module SystemState {
  import opened Wrappers
  import opened Bins
  import opened BinLists
  import opened Queues

  /** `DispatchSummary` of include/core.h; `valid` tells a recorded dispatch from none. */
  datatype DispatchSummary = DispatchSummary(
    valid: bool,
    targetId: int,
    area: string,
    distance: real,
    startFill: int,
    binsCollected: int,
    totalTimeMinutes: real,
    wasPriority: bool)

  /** The zero-initialised static summary. */
  const NoSummary := DispatchSummary(false, 0, "", 0.0, 0, 0, 0.0, false)

  datatype State = State(bins: seq<Bin>, routine: seq<Bin>, urgent: seq<Bin>, last: DispatchSummary)

  /** Start-up: every list empty, no summary. */
  const Initial := State([], [], [], NoSummary)

  /**
   The invariant: identifiers are unique and every bin is well formed;
   every queue entry is an up-to-date copy of a registry bin, classified
   by its fill level; neither queue repeats an entry; the urgent queue is
   in non-increasing priority.
   */
  predicate Valid(s: State)
  {
    && UniqueIds(s.bins)
    && (forall b | b in s.bins :: WellFormed(b))
    && (forall e | e in s.routine :: e in s.bins && !IsUrgent(e))
    && (forall e | e in s.urgent :: e in s.bins && IsUrgent(e))
    && Distinct(s.routine)
    && Distinct(s.urgent)
    && NonIncreasing(s.urgent)
  }

  lemma InitialValid()
    ensures Valid(Initial)
  {
  }

  /**
   In a valid state a bin is queued at most once overall, its queue copy
   is the live bin, and a bin with fill level 0 is never in the urgent
   queue.
   */
  lemma QueuedAtMostOnce(s: State, e: Bin)
    requires Valid(s)
    ensures !(e in s.routine && e in s.urgent)
    ensures e in s.routine ==> multiset(s.routine)[e] == 1 && FindBin(s.bins, e.id) == Some(e)
    ensures e in s.urgent ==> multiset(s.urgent)[e] == 1 && FindBin(s.bins, e.id) == Some(e)
    ensures e in s.urgent ==> e.fillLevel != 0
  {
    if e in s.routine || e in s.urgent {
      var k :| 0 <= k < |s.bins| && s.bins[k] == e;
      FindIndexUnique(s.bins, k);
    }
  }

  /** Queue entries are registry bins, so an empty registry has empty queues. */
  lemma QueuesNeedBins(s: State)
    requires Valid(s)
    ensures |s.bins| == 0 ==> s.routine == [] && s.urgent == []
  {
    if |s.routine| > 0 {
      assert s.routine[0] in s.routine;
    }
    if |s.urgent| > 0 {
      assert s.urgent[0] in s.urgent;
    }
  }
}
