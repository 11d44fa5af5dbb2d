/**
 The counts `displaySystemStatus` of src/main.c prints: every registry
 bin falls into exactly one of four fill-level buckets.
 */
module Status {
  import opened Bins
  import opened BinLists
  import opened SystemState
  import opened Ordering

  /** Lower bound of the "high" bucket (70-89 percent). */
  const HIGH_LEVEL: int := 70
  /** Lower bound of the "medium" bucket (50-69 percent). */
  const MEDIUM_LEVEL: int := 50

  /** Total and per-bucket numbers of bins. */
  datatype StatusCounts = StatusCounts(total: nat, urgent: nat, high: nat, medium: nat, low: nat)

  /** Number of bins whose fill level lies in [lo, hi). */
  function CountIn(bins: seq<Bin>, lo: int, hi: int): nat
  {
    if |bins| == 0 then 0
    else (if lo <= bins[0].fillLevel < hi then 1 else 0) + CountIn(bins[1..], lo, hi)
  }

  /** One bin of fill level `f` added to the counts `c`. */
  function Tally(c: StatusCounts, f: int): StatusCounts
  {
    if f >= URGENT_LEVEL then c.(total := c.total + 1, urgent := c.urgent + 1)
    else if f >= HIGH_LEVEL then c.(total := c.total + 1, high := c.high + 1)
    else if f >= MEDIUM_LEVEL then c.(total := c.total + 1, medium := c.medium + 1)
    else c.(total := c.total + 1, low := c.low + 1)
  }

  /** The counting loop of `displaySystemStatus`, bin by bin in registry order. */
  function SystemStatus(bins: seq<Bin>): (c: StatusCounts)
    ensures c.total == |bins|
    ensures c.urgent + c.high + c.medium + c.low == c.total
    ensures c.urgent == |Select(bins, true)|
  {
    if |bins| == 0 then StatusCounts(0, 0, 0, 0, 0)
    else Tally(SystemStatus(bins[1..]), bins[0].fillLevel)
  }

  /** For valid fill levels, each bucket counts the bins of its range. */
  lemma {:induction false} StatusBuckets(bins: seq<Bin>)
    requires forall b | b in bins :: ValidFillLevel(b.fillLevel)
    ensures var c := SystemStatus(bins);
            && c.urgent == CountIn(bins, URGENT_LEVEL, MAX_FILL + 1)
            && c.high == CountIn(bins, HIGH_LEVEL, URGENT_LEVEL)
            && c.medium == CountIn(bins, MEDIUM_LEVEL, HIGH_LEVEL)
            && c.low == CountIn(bins, 0, MEDIUM_LEVEL)
  {
    if |bins| > 0 {
      var t := bins[1..];
      assert bins[0] in bins;
      assert forall b | b in t :: b in bins;
      StatusBuckets(t);
      assert SystemStatus(bins) == Tally(SystemStatus(t), bins[0].fillLevel);
      TallyCounts(SystemStatus(t), bins);
    }
  }

  /** Tallying the first bin onto the counts of the rest counts every bucket of the whole. */
  lemma TallyCounts(c: StatusCounts, bins: seq<Bin>)
    requires |bins| > 0 && ValidFillLevel(bins[0].fillLevel)
    requires && c.urgent == CountIn(bins[1..], URGENT_LEVEL, MAX_FILL + 1)
             && c.high == CountIn(bins[1..], HIGH_LEVEL, URGENT_LEVEL)
             && c.medium == CountIn(bins[1..], MEDIUM_LEVEL, HIGH_LEVEL)
             && c.low == CountIn(bins[1..], 0, MEDIUM_LEVEL)
    ensures var d := Tally(c, bins[0].fillLevel);
            && d.urgent == CountIn(bins, URGENT_LEVEL, MAX_FILL + 1)
            && d.high == CountIn(bins, HIGH_LEVEL, URGENT_LEVEL)
            && d.medium == CountIn(bins, MEDIUM_LEVEL, HIGH_LEVEL)
            && d.low == CountIn(bins, 0, MEDIUM_LEVEL)
  {
  }

  /** The urgent and routine shares of the registry together are the registry. */
  lemma {:induction false} SelectSplits(bins: seq<Bin>)
    ensures |Select(bins, true)| + |Select(bins, false)| == |bins|
  {
    if |bins| > 0 {
      SelectSplits(bins[1..]);
    }
  }

  /** The warning is printed exactly when some bin is urgent. */
  lemma WarnsIffUrgent(bins: seq<Bin>)
    ensures SystemStatus(bins).urgent > 0 <==> exists b :: b in bins && IsUrgent(b)
  {
    var u := Select(bins, true);
    if |u| > 0 {
      assert u[0] in u;
    }
  }

  /**
   After `queueBinsByDistance` the urgent queue holds as many entries as
   there are urgent bins, and the routine queue the other three buckets.
   */
  lemma QueueSizesMatchStatus(s: State)
    requires |s.bins| > 0
    ensures var r := QueueBinsByDistance(s);
            var c := SystemStatus(s.bins);
            && |r.urgent| == c.urgent
            && |r.routine| == c.high + c.medium + c.low
  {
    var r := QueueBinsByDistance(s);
    QueueBinsByDistanceSpec(s);
    SelectSplits(s.bins);
    assert |r.urgent| == |multiset(r.urgent)|;
    assert |r.routine| == |multiset(r.routine)|;
  }
}
