/**
 The dustbin record of include/core.h and the per-bin rules of src/main.c:
 fill-level validation, the urgency threshold and the priority score.
 */
module Bins {

  /** Fill level (percent) from which a bin is urgent. */
  const URGENT_LEVEL: int := 90
  /** Largest valid fill level. */
  const MAX_FILL: int := 100

  /**
   One dustbin. `distance` is the C `float`, modelled as an exact real;
   `priority` is the C `int` the score is truncated into. Queue nodes carry
   exactly these five fields, so a queue entry is a value of this type: a
   copy taken when it was enqueued.
   */
  datatype Bin = Bin(id: int, area: string, distance: real, fillLevel: int, priority: int)

  /** The C conversion of a floating value to `int`: truncation toward zero. */
  function Trunc(x: real): (r: int)
    ensures 0.0 <= x ==> r as real <= x < r as real + 1.0
    ensures x < 0.0 ==> r as real - 1.0 < x <= r as real
  {
    if x >= 0.0 then x.Floor else -((-x).Floor)
  }

  /** The priority score `2*fill - 5*distance`, stored as a truncated integer. */
  function PriorityOf(fillLevel: int, distance: real): (p: int)
    ensures 0.0 <= 2.0 * fillLevel as real - 5.0 * distance ==> 0 <= p
    ensures 2.0 * fillLevel as real - 5.0 * distance < 0.0 ==> p <= 0
    ensures p as real - 1.0 < 2.0 * fillLevel as real - 5.0 * distance < p as real + 1.0
  {
    Trunc(2.0 * fillLevel as real - 5.0 * distance)
  }

  /** `createBin` without the allocation failure. */
  function CreateBin(id: int, area: string, distance: real, fillLevel: int): (b: Bin)
    ensures b.id == id && b.area == area && b.distance == distance && b.fillLevel == fillLevel
    ensures b.priority == PriorityOf(fillLevel, distance)
  {
    Bin(id, area, distance, fillLevel, PriorityOf(fillLevel, distance))
  }

  /** `validateFillLevel`. */
  predicate ValidFillLevel(fillLevel: int)
  {
    0 <= fillLevel <= MAX_FILL
  }

  /** The routing rule of `classify`. */
  predicate IsUrgent(b: Bin)
  {
    b.fillLevel >= URGENT_LEVEL
  }

  /** What every bin the registry accepts satisfies. */
  predicate WellFormed(b: Bin)
  {
    && ValidFillLevel(b.fillLevel)
    && b.distance >= 0.0
    && b.priority == PriorityOf(b.fillLevel, b.distance)
  }

  /** The bin after a truck emptied it (`markBinCollectedAndRequeue`). */
  function Emptied(b: Bin): (e: Bin)
    ensures e.id == b.id && e.area == b.area && e.distance == b.distance
    ensures e.fillLevel == 0 && !IsUrgent(e)
    ensures WellFormed(b) ==> WellFormed(e)
  {
    b.(fillLevel := 0, priority := PriorityOf(0, b.distance))
  }

  lemma TruncMonotone(x: real, y: real)
    requires x <= y
    ensures Trunc(x) <= Trunc(y)
  {
    if 0.0 <= x {
      assert x.Floor <= y.Floor;
    } else if y < 0.0 {
      assert (-y).Floor <= (-x).Floor;
    }
  }

  /**
   The score ranks fuller and nearer bins first: raising the fill level or
   shortening the distance never lowers the priority.
   */
  lemma PriorityMonotone(f1: int, d1: real, f2: int, d2: real)
    requires f1 <= f2 && d2 <= d1
    ensures PriorityOf(f1, d1) <= PriorityOf(f2, d2)
  {
    TruncMonotone(2.0 * f1 as real - 5.0 * d1, 2.0 * f2 as real - 5.0 * d2);
  }

  /** At a whole-kilometre distance no truncation happens. */
  lemma PriorityExactAtWholeDistance(fillLevel: int, km: int)
    ensures PriorityOf(fillLevel, km as real) == 2 * fillLevel - 5 * km
  {
  }
}
