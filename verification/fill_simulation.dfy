/**
 `simulateFillLevelIncrease` of src/main.c: every registry bin grows by a
 random 5-24 percent, capped at 100, through `updateFillLevel`; then the
 queues are rebuilt. The random increases are a parameter, one per bin in
 registry order.
 */
module FillSimulation {
  import opened Bins
  import opened BinLists
  import opened SystemState
  import opened Registry
  import opened Ordering

  /** The range of `rand() % 20 + 5`. */
  predicate ValidIncrease(inc: int)
  {
    5 <= inc <= 24
  }

  /** The smaller of two levels. */
  function Min(a: int, b: int): int
  {
    if a <= b then a else b
  }

  /** The new level the loop computes: the sum, cut down to 100. */
  function Capped(fillLevel: int, inc: int): (r: int)
    ensures r <= MAX_FILL
    ensures r == fillLevel + inc || r == MAX_FILL
    ensures fillLevel + inc <= MAX_FILL ==> r == fillLevel + inc
  {
    if fillLevel + inc > MAX_FILL then MAX_FILL else fillLevel + inc
  }

  /** An increase in 5..24 keeps a valid level valid and never lowers it. */
  lemma CappedStaysValid(fillLevel: int, inc: int)
    requires ValidFillLevel(fillLevel) && ValidIncrease(inc)
    ensures ValidFillLevel(Capped(fillLevel, inc))
    ensures fillLevel <= Capped(fillLevel, inc)
    ensures fillLevel < Capped(fillLevel, inc) <==> fillLevel < MAX_FILL
  {
  }

  /** The loop from registry position `i` on; the second component counts the updates. */
  function RaiseFrom(s: State, incs: seq<int>, i: nat): (r: (State, nat))
    requires |incs| == |s.bins| && i <= |s.bins|
    ensures |r.0.bins| == |s.bins| && r.0.last == s.last
    ensures r.1 <= |s.bins| - i
    decreases |s.bins| - i
  {
    if i == |s.bins| then (s, 0)
    else
      var b := s.bins[i];
      var newLevel := Capped(b.fillLevel, incs[i]);
      if b.fillLevel < newLevel then
        var rest := RaiseFrom(UpdateFillLevel(s, b.id, newLevel).next, incs, i + 1);
        (rest.0, rest.1 + 1)
      else RaiseFrom(s, incs, i + 1)
  }

  /** `simulateFillLevelIncrease`: the new state and the number of bins updated. */
  function SimulateFillLevelIncrease(s: State, incs: seq<int>): (r: (State, nat))
    requires |incs| == |s.bins|
    ensures |r.0.bins| == |s.bins| && r.0.last == s.last
    ensures r.1 <= |s.bins|
  {
    var raised := RaiseFrom(s, incs, 0);
    (QueueBinsByDistance(raised.0), raised.1)
  }

  /** Number of bins below 100 percent. */
  function CountBelowFull(bins: seq<Bin>): nat
  {
    if |bins| == 0 then 0
    else (if bins[0].fillLevel < MAX_FILL then 1 else 0) + CountBelowFull(bins[1..])
  }

  /**
   `after` is `before` grown by `inc`: the same bin at the level
   min(level + inc, 100), with the priority of that level.
   */
  predicate Grown(before: Bin, after: Bin, inc: int)
  {
    && after.id == before.id && after.area == before.area && after.distance == before.distance
    && after.fillLevel == Min(before.fillLevel + inc, MAX_FILL)
    && after.priority == PriorityOf(after.fillLevel, after.distance)
  }

  /** One step of `CountBelowFull` over a registry suffix. */
  lemma CountStep(bins: seq<Bin>, i: nat)
    requires i < |bins|
    ensures CountBelowFull(bins[i..])
            == (if bins[i].fillLevel < MAX_FILL then 1 else 0) + CountBelowFull(bins[i + 1..])
  {
    assert bins[i..][0] == bins[i];
    assert bins[i..][1..] == bins[i + 1..];
  }

  /** What the loop guarantees from position `i` on, for the state `r` it ends in. */
  predicate RaisedFrom(s: State, incs: seq<int>, i: nat, r: State, n: nat)
    requires |incs| == |s.bins| && i <= |s.bins|
  {
    && Valid(r) && |r.bins| == |s.bins|
    && (forall j | 0 <= j < i :: r.bins[j] == s.bins[j])
    && (forall j | i <= j < |s.bins| :: Grown(s.bins[j], r.bins[j], incs[j]))
    && n == CountBelowFull(s.bins[i..])
  }

  /** An update at position `i` followed by a correct rest of the loop is a correct loop from `i`. */
  lemma RaiseStep(s: State, incs: seq<int>, i: nat, r: State, n: nat)
    requires Valid(s) && |incs| == |s.bins| && i < |s.bins| && ValidIncrease(incs[i])
    requires s.bins[i].fillLevel < Capped(s.bins[i].fillLevel, incs[i])
    requires var s1 := UpdateFillLevel(s, s.bins[i].id, Capped(s.bins[i].fillLevel, incs[i])).next;
             |s1.bins| == |s.bins| && RaisedFrom(s1, incs, i + 1, r, n)
    ensures RaisedFrom(s, incs, i, r, n + 1)
  {
    var b := s.bins[i];
    var newLevel := Capped(b.fillLevel, incs[i]);
    assert b in s.bins;
    FindIndexUnique(s.bins, i);
    var s1 := UpdateFillLevel(s, b.id, newLevel).next;
    assert s1.bins == s.bins[i := Refilled(b, newLevel)];
    assert s1.bins[i + 1..] == s.bins[i + 1..];
    CountStep(s.bins, i);
    forall j | i <= j < |s.bins| ensures Grown(s.bins[j], r.bins[j], incs[j]) {
      if j > i {
        assert s1.bins[j] == s.bins[j];
      }
    }
  }

  /** A full bin at position `i` is skipped, and skipping it is what growing it means. */
  lemma RaiseSkip(s: State, incs: seq<int>, i: nat, r: State, n: nat)
    requires Valid(s) && |incs| == |s.bins| && i < |s.bins| && ValidIncrease(incs[i])
    requires s.bins[i].fillLevel >= Capped(s.bins[i].fillLevel, incs[i])
    requires RaisedFrom(s, incs, i + 1, r, n)
    ensures RaisedFrom(s, incs, i, r, n)
  {
    var b := s.bins[i];
    assert b in s.bins;
    assert b.fillLevel == MAX_FILL;
    CountStep(s.bins, i);
  }

  /** The update at position `i` keeps the invariant. */
  lemma RaiseStepValid(s: State, incs: seq<int>, i: nat)
    requires Valid(s) && |incs| == |s.bins| && i < |s.bins|
    ensures Valid(UpdateFillLevel(s, s.bins[i].id, Capped(s.bins[i].fillLevel, incs[i])).next)
  {
    UpdateFillLevelValid(s, s.bins[i].id, Capped(s.bins[i].fillLevel, incs[i]));
  }

  /**
   From position `i` on, the loop grows every bin by its increase, capped
   at 100, leaves the earlier bins alone, counts the bins that were below
   100, and keeps the invariant.
   */
  lemma {:induction false} RaiseFromSpec(s: State, incs: seq<int>, i: nat)
    requires Valid(s) && |incs| == |s.bins| && i <= |s.bins|
    requires forall k | 0 <= k < |incs| :: ValidIncrease(incs[k])
    ensures RaisedFrom(s, incs, i, RaiseFrom(s, incs, i).0, RaiseFrom(s, incs, i).1)
    decreases |s.bins| - i, 1
  {
    if i < |s.bins| {
      if s.bins[i].fillLevel < Capped(s.bins[i].fillLevel, incs[i]) {
        RaiseFromSpecUpdate(s, incs, i);
      } else {
        RaiseFromSkips(s, incs, i);
        RaiseFromSpec(s, incs, i + 1);
        RaiseSkip(s, incs, i, RaiseFrom(s, incs, i + 1).0, RaiseFrom(s, incs, i + 1).1);
      }
    } else {
      assert s.bins[i..] == [];
    }
  }

  /** `RaiseFromSpec` at a bin below its new level. */
  lemma {:induction false} RaiseFromSpecUpdate(s: State, incs: seq<int>, i: nat)
    requires Valid(s) && |incs| == |s.bins| && i < |s.bins|
    requires forall k | 0 <= k < |incs| :: ValidIncrease(incs[k])
    requires s.bins[i].fillLevel < Capped(s.bins[i].fillLevel, incs[i])
    ensures RaisedFrom(s, incs, i, RaiseFrom(s, incs, i).0, RaiseFrom(s, incs, i).1)
    decreases |s.bins| - i, 0
  {
    var s1 := UpdateFillLevel(s, s.bins[i].id, Capped(s.bins[i].fillLevel, incs[i])).next;
    RaiseFromUpdates(s, incs, i);
    RaiseStepValid(s, incs, i);
    RaiseFromSpec(s1, incs, i + 1);
    RaiseStep(s, incs, i, RaiseFrom(s1, incs, i + 1).0, RaiseFrom(s1, incs, i + 1).1);
  }

  /** The loop at a bin below its new level: update it, then go on. */
  lemma RaiseFromUpdates(s: State, incs: seq<int>, i: nat)
    requires |incs| == |s.bins| && i < |s.bins|
    requires s.bins[i].fillLevel < Capped(s.bins[i].fillLevel, incs[i])
    ensures var s1 := UpdateFillLevel(s, s.bins[i].id, Capped(s.bins[i].fillLevel, incs[i])).next;
            && |s1.bins| == |s.bins|
            && RaiseFrom(s, incs, i) == (RaiseFrom(s1, incs, i + 1).0, RaiseFrom(s1, incs, i + 1).1 + 1)
  {
  }

  /** The loop at a full bin: go on with the state unchanged. */
  lemma RaiseFromSkips(s: State, incs: seq<int>, i: nat)
    requires |incs| == |s.bins| && i < |s.bins|
    requires s.bins[i].fillLevel >= Capped(s.bins[i].fillLevel, incs[i])
    ensures RaiseFrom(s, incs, i) == RaiseFrom(s, incs, i + 1)
  {
  }

  /**
   `simulateFillLevelIncrease` grows every bin to min(level + increase,
   100) with its priority recomputed, reports how many bins were below
   100, keeps the invariant and leaves every bin queued once, in the queue
   its new level calls for.
   */
  lemma SimulateFillLevelIncreaseSpec(s: State, incs: seq<int>)
    requires Valid(s) && |incs| == |s.bins|
    requires forall k | 0 <= k < |incs| :: ValidIncrease(incs[k])
    ensures var r := SimulateFillLevelIncrease(s, incs).0;
            var n := SimulateFillLevelIncrease(s, incs).1;
            && Valid(r) && |r.bins| == |s.bins| && r.last == s.last
            && (forall j | 0 <= j < |s.bins| :: Grown(s.bins[j], r.bins[j], incs[j]))
            && n == CountBelowFull(s.bins)
            && (forall b | b in r.bins ::
                  if IsUrgent(b) then b in r.urgent && b !in r.routine
                  else b in r.routine && b !in r.urgent)
  {
    RaiseFromSpec(s, incs, 0);
    assert s.bins[0..] == s.bins;
    var raised := RaiseFrom(s, incs, 0).0;
    QueueBinsByDistanceValid(raised);
    forall b | b in QueueBinsByDistance(raised).bins
      ensures var r := QueueBinsByDistance(raised);
              if IsUrgent(b) then b in r.urgent && b !in r.routine
              else b in r.routine && b !in r.urgent
    {
      var r := QueueBinsByDistance(raised);
      assert multiset(r.urgent)[b] == 1 ==> b in r.urgent;
      assert multiset(r.routine)[b] == 1 ==> b in r.routine;
    }
  }
}
