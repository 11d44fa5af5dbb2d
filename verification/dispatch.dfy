/**
 The truck dispatch simulator of src/main.c: `popPriorityTarget`,
 `popNormalTarget`, `travelTime`, the area collection loop of
 `simulateTruckCollection`, the summary it records and
 `getLastDispatchSummary`.
 */
module Dispatch {
  import opened Wrappers
  import opened Bins
  import opened BinLists
  import opened Queues
  import opened SystemState
  import opened Registry
  import opened DistanceSort
  import opened Ordering

  /** Truck speed in km/h. */
  const SPEED_KMPH: real := 30.0
  /** Minutes spent loading one bin. */
  const LOAD_TIME: real := 3.0

  /** What a pop hands back through its out-parameters: the id and the bin's fields. */
  datatype Target = Target(id: int, area: string, distance: real, fillLevel: int)

  /** The popped target (`None` for the C return value -1) and the state afterwards. */
  datatype Popped = Popped(target: Option<Target>, next: State)

  /** The live bin's fields when the id still resolves, else those of the queue copy. */
  function Resolve(bins: seq<Bin>, node: Bin): (t: Target)
    ensures t.id == node.id
    ensures FindBin(bins, node.id).Some? ==>
              var b := FindBin(bins, node.id).value;
              t.area == b.area && t.distance == b.distance && t.fillLevel == b.fillLevel
    ensures FindBin(bins, node.id).None? ==>
              t.area == node.area && t.distance == node.distance && t.fillLevel == node.fillLevel
  {
    match FindBin(bins, node.id)
    case Some(b) => Target(node.id, b.area, b.distance, b.fillLevel)
    case None => Target(node.id, node.area, node.distance, node.fillLevel)
  }

  /** `popPriorityTarget`: take the urgent head. */
  function PopPriorityTarget(s: State): (r: Popped)
    ensures r.target.None? <==> |s.urgent| == 0
    ensures r.target.None? ==> r.next == s
    ensures r.target.Some? ==>
              && r.next == s.(urgent := s.urgent[1..])
              && r.target.value == Resolve(s.bins, s.urgent[0])
  {
    if |s.urgent| == 0 then Popped(None, s)
    else Popped(Some(Resolve(s.bins, s.urgent[0])), s.(urgent := s.urgent[1..]))
  }

  /** `popNormalTarget`: take the routine head. */
  function PopNormalTarget(s: State): (r: Popped)
    ensures r.target.None? <==> |s.routine| == 0
    ensures r.target.None? ==> r.next == s
    ensures r.target.Some? ==>
              && r.next == s.(routine := s.routine[1..])
              && r.target.value == Resolve(s.bins, s.routine[0])
  {
    if |s.routine| == 0 then Popped(None, s)
    else Popped(Some(Resolve(s.bins, s.routine[0])), s.(routine := s.routine[1..]))
  }

  /** `travelTime`: minutes to cover `d` km at `speed` km/h. */
  function TravelTime(d: real, speed: real): (t: real)
    requires speed != 0.0
    ensures t * speed == d * 60.0
  {
    (d / speed) * 60.0
  }

  /** A bin of `area` that holds waste, i.e. one the truck collects. */
  predicate HoldsWasteIn(b: Bin, area: string)
  {
    b.area == area && b.fillLevel > 0
  }

  /** Emptied copies of the bins of `area` that hold waste, in registry order. */
  function Collected(bins: seq<Bin>, area: string): seq<Bin>
  {
    if |bins| == 0 then []
    else (if HoldsWasteIn(bins[0], area) then [Emptied(bins[0])] else []) + Collected(bins[1..], area)
  }

  /**
   The collection loop of `simulateTruckCollection` from registry position
   `i` on: every bin of `area` holding waste is marked collected and
   requeued; the second component counts them.
   */
  function CollectFrom(s: State, area: string, i: nat): (r: (State, nat))
    requires i <= |s.bins|
    ensures |r.0.bins| == |s.bins| && r.0.last == s.last
    decreases |s.bins| - i
  {
    if i == |s.bins| then (s, 0)
    else
      var d := s.bins[i];
      if d.area == area && d.fillLevel > 0 then
        var rest := CollectFrom(MarkCollectedAndRequeue(s, d.id), area, i + 1);
        (rest.0, rest.1 + 1)
      else CollectFrom(s, area, i + 1)
  }

  /** The target: the urgent head if there is one, else the routine head. */
  function PickTarget(s: State): (r: Popped)
    ensures r.next.bins == s.bins && r.next.last == s.last
    ensures r.target.None? <==> |s.urgent| == 0 && |s.routine| == 0
    ensures |s.urgent| > 0 ==> r.target == Some(Resolve(s.bins, s.urgent[0]))
    ensures |s.urgent| == 0 && |s.routine| > 0 ==> r.target == Some(Resolve(s.bins, s.routine[0]))
    ensures |s.urgent| > 0 ==> r.next == s.(urgent := s.urgent[1..])
    ensures |s.urgent| == 0 && |s.routine| > 0 ==> r.next == s.(routine := s.routine[1..])
    ensures r.target.None? ==> r.next == s
  {
    var p := PopPriorityTarget(s);
    if p.target.Some? then p else PopNormalTarget(p.next)
  }

  /** A popped target is served: its id still resolves to a bin that is not empty. */
  predicate Dispatches(p: Popped)
  {
    && p.target.Some?
    && FindBin(p.next.bins, p.target.value.id).Some?
    && FindBin(p.next.bins, p.target.value.id).value.fillLevel != 0
  }

  /**
   The rest of `simulateTruckCollection` once a target was popped: abort
   without a summary when nothing was popped, the id no longer resolves or
   the bin is already empty; else collect its area and record the summary.
   */
  function CollectTarget(p: Popped): (r: State)
    ensures |r.bins| == |p.next.bins|
    ensures !Dispatches(p) ==> r == p.next
    ensures Dispatches(p) ==>
              var t := p.target.value;
              var n := CollectFrom(p.next, t.area, 0).1;
              r == CollectFrom(p.next, t.area, 0).0.(last := DispatchSummary(true, t.id, t.area, t.distance, t.fillLevel, n,
                                           4.0 * t.distance + LOAD_TIME * n as real, t.fillLevel >= URGENT_LEVEL))
  {
    match p.target
    case None => p.next
    case Some(t) =>
      match FindBin(p.next.bins, t.id)
      case None => p.next
      case Some(targetBin) =>
        if targetBin.fillLevel == 0 then p.next
        else
          var go := TravelTime(t.distance, SPEED_KMPH);
          var ret := go;
          var collection := CollectFrom(p.next, t.area, 0);
          var collected := collection.0;
          var binsCollected := collection.1;
          var totalTime := go + ret + binsCollected as real * LOAD_TIME;
          collected.(last := DispatchSummary(true, t.id, t.area, t.distance, t.fillLevel,
                                             binsCollected, totalTime, t.fillLevel >= URGENT_LEVEL))
  }

  /** `simulateTruckCollection`: invalidate the summary, rebuild the queues, dispatch. */
  function SimulateTruckCollection(s: State): (r: State)
    ensures |r.bins| == |s.bins|
    ensures !r.last.valid ==> r.bins == s.bins
    ensures r.last.valid ==>
              && r.last.totalTimeMinutes == 4.0 * r.last.distance + LOAD_TIME * r.last.binsCollected as real
              && (r.last.wasPriority <==> r.last.startFill >= URGENT_LEVEL)
  {
    CollectTarget(PickTarget(Rebuilt(s)))
  }

  /** `getLastDispatchSummary`: nothing unless a dispatch was recorded. */
  function GetLastDispatchSummary(s: State): (r: Option<DispatchSummary>)
    ensures r.None? <==> !s.last.valid
    ensures r.Some? ==> r.value == s.last
  {
    if !s.last.valid then None else Some(s.last)
  }

  // ---------------------------------------------------------------------
  // The collection loop
  // ---------------------------------------------------------------------

  /** One step of `Collected` over a registry suffix. */
  lemma CollectedStep(bins: seq<Bin>, area: string, i: nat)
    requires i < |bins|
    ensures Collected(bins[i..], area)
            == (if HoldsWasteIn(bins[i], area) then [Emptied(bins[i])] else []) + Collected(bins[i + 1..], area)
  {
    assert bins[i..][0] == bins[i];
    assert bins[i..][1..] == bins[i + 1..];
  }

  /**
   What the collection loop guarantees from position `i` on, for the state
   `r` it ends in and the count `n` it returns: exactly the bins of `area`
   that hold waste are emptied, they are counted, and the invariant holds.
   */
  predicate CollectedFrom(s: State, area: string, i: nat, r: State, n: nat)
    requires i <= |s.bins|
  {
    && Valid(r) && |r.bins| == |s.bins|
    && (forall j | 0 <= j < |s.bins| ::
          r.bins[j] == if i <= j && HoldsWasteIn(s.bins[j], area) then Emptied(s.bins[j]) else s.bins[j])
    && n == |Collected(s.bins[i..], area)|
  }

  /** Collecting position `i`, then the rest correctly, is a correct loop from `i`. */
  lemma CollectStepBins(s: State, area: string, i: nat, r: State, n: nat)
    requires Valid(s) && i < |s.bins| && HoldsWasteIn(s.bins[i], area)
    requires var s1 := MarkCollectedAndRequeue(s, s.bins[i].id);
             CollectedFrom(s1, area, i + 1, r, n)
    ensures CollectedFrom(s, area, i, r, n + 1)
  {
    var d := s.bins[i];
    CollectedStep(s.bins, area, i);
    FindIndexUnique(s.bins, i);
    var s1 := MarkCollectedAndRequeue(s, d.id);
    assert s1.bins == s.bins[i := Emptied(d)];
    assert s1.bins[i + 1..] == s.bins[i + 1..];
  }

  /** Skipping position `i`, then the rest correctly, is a correct loop from `i`. */
  lemma CollectSkipBins(s: State, area: string, i: nat, r: State, n: nat)
    requires i < |s.bins| && !HoldsWasteIn(s.bins[i], area)
    requires CollectedFrom(s, area, i + 1, r, n)
    ensures CollectedFrom(s, area, i, r, n)
  {
    CollectedStep(s.bins, area, i);
  }

  /** The collection loop from position `i` on does what `CollectedFrom` says. */
  lemma {:induction false} CollectFromBins(s: State, area: string, i: nat)
    requires Valid(s) && i <= |s.bins|
    ensures CollectedFrom(s, area, i, CollectFrom(s, area, i).0, CollectFrom(s, area, i).1)
    decreases |s.bins| - i
  {
    if i < |s.bins| {
      if HoldsWasteIn(s.bins[i], area) {
        var s1 := MarkCollectedAndRequeue(s, s.bins[i].id);
        CollectFromTakes(s, area, i);
        MarkCollectedValid(s, s.bins[i].id);
        CollectFromBins(s1, area, i + 1);
        CollectStepBins(s, area, i, CollectFrom(s1, area, i + 1).0, CollectFrom(s1, area, i + 1).1);
      } else {
        CollectFromPasses(s, area, i);
        CollectFromBins(s, area, i + 1);
        CollectSkipBins(s, area, i, CollectFrom(s, area, i + 1).0, CollectFrom(s, area, i + 1).1);
      }
    } else {
      assert Collected(s.bins[i..], area) == [];
    }
  }

  /** The loop at a bin of the area holding waste: collect it, then go on. */
  lemma CollectFromTakes(s: State, area: string, i: nat)
    requires i < |s.bins| && HoldsWasteIn(s.bins[i], area)
    ensures var s1 := MarkCollectedAndRequeue(s, s.bins[i].id);
            && |s1.bins| == |s.bins|
            && CollectFrom(s, area, i) == (CollectFrom(s1, area, i + 1).0, CollectFrom(s1, area, i + 1).1 + 1)
  {
  }

  /** The loop at any other bin: go on with the state unchanged. */
  lemma CollectFromPasses(s: State, area: string, i: nat)
    requires i < |s.bins| && !HoldsWasteIn(s.bins[i], area)
    ensures CollectFrom(s, area, i) == CollectFrom(s, area, i + 1)
  {
  }

  /** Marking the bin at registry position `i` collected appends its emptied copy to the routine queue. */
  lemma RequeuedAtBack(s: State, i: nat, t: seq<Bin>)
    requires Valid(s) && i < |s.bins| && IsSuffix(t, s.routine) && !HasId(t, s.bins[i].id)
    ensures IsSuffix(t + [Emptied(s.bins[i])], MarkCollectedAndRequeue(s, s.bins[i].id).routine)
  {
    var d := s.bins[i];
    var e := Emptied(d);
    FindIndexUnique(s.bins, i);
    var x := s.routine[..|s.routine| - |t|];
    assert s.routine == x + t;
    RemoveByIdAppend(x, t, d.id);
    var q := RemoveById(s.routine, d.id);
    var s1 := MarkCollectedAndRequeue(s, d.id);
    assert s1.routine == q + [e];
    assert s1.routine == RemoveById(x, d.id) + (t + [e]);
  }

  /** After collecting position `i`, the grown tail still shares no id with the bins after `i`. */
  lemma TailStaysApart(s: State, i: nat, t: seq<Bin>)
    requires Valid(s) && i < |s.bins|
    requires forall e, j | e in t && i <= j < |s.bins| :: e.id != s.bins[j].id
    ensures var s1 := MarkCollectedAndRequeue(s, s.bins[i].id);
            forall c, j | c in t + [Emptied(s.bins[i])] && i + 1 <= j < |s1.bins| :: c.id != s1.bins[j].id
  {
    FindIndexUnique(s.bins, i);
    var s1 := MarkCollectedAndRequeue(s, s.bins[i].id);
    forall c, j | c in t + [Emptied(s.bins[i])] && i + 1 <= j < |s1.bins| ensures c.id != s1.bins[j].id {
      assert s1.bins[j] == s.bins[j];
      if c == Emptied(s.bins[i]) {
        assert s.bins[i].id == c.id;
      }
    }
  }

  /** Regrouping a concatenation keeps it a suffix. */
  lemma SuffixRegroup(t: seq<Bin>, e: Bin, c: seq<Bin>, r: seq<Bin>)
    requires IsSuffix(t + [e] + c, r)
    ensures IsSuffix(t + ([e] + c), r)
  {
    assert t + [e] + c == t + ([e] + c);
  }

  /** The facts one collected position hands on to the rest of the loop. */
  lemma CollectStepQueue(s: State, area: string, i: nat, t: seq<Bin>)
    requires Valid(s) && i < |s.bins| && IsSuffix(t, s.routine) && HoldsWasteIn(s.bins[i], area)
    requires forall e, j | e in t && i <= j < |s.bins| :: e.id != s.bins[j].id
    ensures var s1 := MarkCollectedAndRequeue(s, s.bins[i].id);
            var t1 := t + [Emptied(s.bins[i])];
            && Valid(s1) && |s1.bins| == |s.bins| && IsSuffix(t1, s1.routine)
            && (forall c, j | c in t1 && i + 1 <= j < |s1.bins| :: c.id != s1.bins[j].id)
            && s1.bins[i + 1..] == s.bins[i + 1..]
            && CollectFrom(s, area, i).0 == CollectFrom(s1, area, i + 1).0
            && Collected(s.bins[i..], area) == [Emptied(s.bins[i])] + Collected(s.bins[i + 1..], area)
  {
    var d := s.bins[i];
    CollectFromTakes(s, area, i);
    CollectedStep(s.bins, area, i);
    FindIndexUnique(s.bins, i);
    MarkCollectedValid(s, d.id);
    assert !HasId(t, d.id) by {
      forall k | 0 <= k < |t| ensures t[k].id != d.id {
        assert t[k] in t;
      }
    }
    RequeuedAtBack(s, i, t);
    TailStaysApart(s, i, t);
    var s1 := MarkCollectedAndRequeue(s, d.id);
    assert s1.bins[i + 1..] == s.bins[i + 1..];
  }

  /**
   The emptied bins are requeued at the back of the routine queue in
   registry order, behind whatever tail `t` the queue already ended with.
   */
  lemma {:induction false} CollectFromQueue(s: State, area: string, i: nat, t: seq<Bin>)
    requires Valid(s) && i <= |s.bins| && IsSuffix(t, s.routine)
    requires forall e, j | e in t && i <= j < |s.bins| :: e.id != s.bins[j].id
    ensures IsSuffix(t + Collected(s.bins[i..], area), CollectFrom(s, area, i).0.routine)
    decreases |s.bins| - i, 1
  {
    if i < |s.bins| {
      var d := s.bins[i];
      if HoldsWasteIn(d, area) {
        CollectFromQueueTake(s, area, i, t);
      } else {
        CollectFromQueue(s, area, i + 1, t);
        CollectSkipQueue(s, area, i, t);
      }
    } else {
      assert Collected(s.bins[i..], area) == [];
      assert t + [] == t;
    }
  }

  /** `CollectFromQueue` at a position the loop collects. */
  lemma {:induction false} CollectFromQueueTake(s: State, area: string, i: nat, t: seq<Bin>)
    requires Valid(s) && i < |s.bins| && IsSuffix(t, s.routine) && HoldsWasteIn(s.bins[i], area)
    requires forall e, j | e in t && i <= j < |s.bins| :: e.id != s.bins[j].id
    ensures IsSuffix(t + Collected(s.bins[i..], area), CollectFrom(s, area, i).0.routine)
    decreases |s.bins| - i, 0
  {
    var s1 := MarkCollectedAndRequeue(s, s.bins[i].id);
    CollectStepQueue(s, area, i, t);
    CollectFromQueue(s1, area, i + 1, t + [Emptied(s.bins[i])]);
    CollectTakeQueue(s, area, i, t);
  }

  /** A position the loop collects puts its emptied copy on the routine tail, ahead of the rest. */
  lemma CollectTakeQueue(s: State, area: string, i: nat, t: seq<Bin>)
    requires Valid(s) && i < |s.bins| && IsSuffix(t, s.routine) && HoldsWasteIn(s.bins[i], area)
    requires forall e, j | e in t && i <= j < |s.bins| :: e.id != s.bins[j].id
    requires var s1 := MarkCollectedAndRequeue(s, s.bins[i].id);
             IsSuffix(t + [Emptied(s.bins[i])] + Collected(s1.bins[i + 1..], area), CollectFrom(s1, area, i + 1).0.routine)
    ensures IsSuffix(t + Collected(s.bins[i..], area), CollectFrom(s, area, i).0.routine)
  {
    CollectStepQueue(s, area, i, t);
    SuffixRegroup(t, Emptied(s.bins[i]), Collected(s.bins[i + 1..], area), CollectFrom(s, area, i).0.routine);
  }

  /** A position the loop passes over adds nothing to the routine tail. */
  lemma CollectSkipQueue(s: State, area: string, i: nat, t: seq<Bin>)
    requires i < |s.bins| && !HoldsWasteIn(s.bins[i], area)
    requires IsSuffix(t + Collected(s.bins[i + 1..], area), CollectFrom(s, area, i + 1).0.routine)
    ensures IsSuffix(t + Collected(s.bins[i..], area), CollectFrom(s, area, i).0.routine)
  {
    CollectedStep(s.bins, area, i);
    assert Collected(s.bins[i..], area) == Collected(s.bins[i + 1..], area);
    CollectFromPasses(s, area, i);
  }

  // ---------------------------------------------------------------------
  // What the collection leaves in the queues
  // ---------------------------------------------------------------------

  /** The queue entries a collection of `area` leaves in place, in queue order: those holding no waste there. */
  function Uncollected(q: seq<Bin>, area: string): seq<Bin>
  {
    if |q| == 0 then []
    else (if HoldsWasteIn(q[0], area) then [] else [q[0]]) + Uncollected(q[1..], area)
  }

  /** Filtering distributes over concatenation. */
  lemma {:induction false} UncollectedAppend(a: seq<Bin>, c: seq<Bin>, area: string)
    ensures Uncollected(a + c, area) == Uncollected(a, area) + Uncollected(c, area)
  {
    if |a| == 0 {
      assert a + c == c;
    } else {
      var ac := a + c;
      assert ac[0] == a[0] && ac[1..] == a[1..] + c;
      UncollectedAppend(a[1..], c, area);
    }
  }

  /** Unlinking an id whose entries all hold waste in `area` does not change what the filter keeps. */
  lemma {:induction false} UncollectedRemove(q: seq<Bin>, id: int, area: string)
    requires forall e | e in q && e.id == id :: HoldsWasteIn(e, area)
    ensures Uncollected(RemoveById(q, id), area) == Uncollected(q, area)
  {
    if |q| > 0 {
      assert q[0] in q;
      if q[0].id != id {
        var t := q[1..];
        assert forall e | e in t :: e in q;
        UncollectedRemove(t, id, area);
        var r := RemoveById(q, id);
        assert r == [q[0]] + RemoveById(t, id);
        assert r[0] == q[0] && r[1..] == RemoveById(t, id);
      }
    }
  }

  /** A queue none of whose entries holds waste in `area` passes the filter whole. */
  lemma {:induction false} UncollectedNone(q: seq<Bin>, area: string)
    requires forall e | e in q :: !HoldsWasteIn(e, area)
    ensures Uncollected(q, area) == q
  {
    if |q| > 0 {
      assert q[0] in q;
      assert forall e | e in q[1..] :: e in q;
      UncollectedNone(q[1..], area);
    }
  }

  /**
   The queues the collection loop ends with, from position `i` on: both
   queues lose exactly their entries holding waste in `area`, and the
   routine queue gains the emptied copies at its tail in registry order.
   */
  predicate QueuesCollected(s: State, area: string, i: nat, r: State)
    requires i <= |s.bins|
  {
    && r.urgent == Uncollected(s.urgent, area)
    && r.routine == Uncollected(s.routine, area) + Collected(s.bins[i..], area)
  }

  /**
   From a position before which no bin of `area` holds waste, the loop
   leaves the queues as `QueuesCollected` says: every other entry stays,
   in its order.
   */
  lemma {:induction false} CollectFromQueues(s: State, area: string, i: nat)
    requires Valid(s) && i <= |s.bins|
    requires forall j | 0 <= j < i :: !HoldsWasteIn(s.bins[j], area)
    ensures QueuesCollected(s, area, i, CollectFrom(s, area, i).0)
    decreases |s.bins| - i, 1
  {
    if i < |s.bins| {
      if HoldsWasteIn(s.bins[i], area) {
        CollectFromQueuesTake(s, area, i);
      } else {
        CollectFromPasses(s, area, i);
        CollectFromQueues(s, area, i + 1);
        CollectedStep(s.bins, area, i);
      }
    } else {
      assert forall e | e in s.bins :: !HoldsWasteIn(e, area);
      UncollectedNone(s.urgent, area);
      UncollectedNone(s.routine, area);
      assert s.bins[i..] == [];
      assert s.routine + [] == s.routine;
    }
  }

  /** `CollectFromQueues` at a position the loop collects. */
  lemma {:induction false} CollectFromQueuesTake(s: State, area: string, i: nat)
    requires Valid(s) && i < |s.bins| && HoldsWasteIn(s.bins[i], area)
    requires forall j | 0 <= j < i :: !HoldsWasteIn(s.bins[j], area)
    ensures QueuesCollected(s, area, i, CollectFrom(s, area, i).0)
    decreases |s.bins| - i, 0
  {
    var s1 := MarkCollectedAndRequeue(s, s.bins[i].id);
    CollectFromTakes(s, area, i);
    MarkedStaysCollectable(s, area, i);
    CollectFromQueues(s1, area, i + 1);
    QueuesTakeStep(s, area, i, CollectFrom(s1, area, i + 1).0);
  }

  /** After collecting position `i`, no bin up to `i` holds waste in `area`, and the state is valid. */
  lemma MarkedStaysCollectable(s: State, area: string, i: nat)
    requires Valid(s) && i < |s.bins| && HoldsWasteIn(s.bins[i], area)
    requires forall j | 0 <= j < i :: !HoldsWasteIn(s.bins[j], area)
    ensures var s1 := MarkCollectedAndRequeue(s, s.bins[i].id);
            && Valid(s1) && |s1.bins| == |s.bins|
            && forall j | 0 <= j < i + 1 :: !HoldsWasteIn(s1.bins[j], area)
  {
    FindIndexUnique(s.bins, i);
    MarkCollectedValid(s, s.bins[i].id);
  }

  /** Collecting position `i` and then the rest as `QueuesCollected` says is the loop from `i`. */
  lemma QueuesTakeStep(s: State, area: string, i: nat, r: State)
    requires Valid(s) && i < |s.bins| && HoldsWasteIn(s.bins[i], area)
    requires var s1 := MarkCollectedAndRequeue(s, s.bins[i].id);
             |s1.bins| == |s.bins| && QueuesCollected(s1, area, i + 1, r)
    ensures QueuesCollected(s, area, i, r)
  {
    var d := s.bins[i];
    MarkedQueues(s, i);
    LiveCopiesHoldWaste(s, i, area);
    UncollectedRemove(s.urgent, d.id, area);
    RoutineTakeStep(s.routine, s.bins, i, area);
  }

  /** Collecting position `i` unlinks its id from both queues and re-queues its emptied copy; later bins stay. */
  lemma MarkedQueues(s: State, i: nat)
    requires Valid(s) && i < |s.bins|
    ensures var s1 := MarkCollectedAndRequeue(s, s.bins[i].id);
            && s1.urgent == RemoveById(s.urgent, s.bins[i].id)
            && s1.routine == RemoveById(s.routine, s.bins[i].id) + [Emptied(s.bins[i])]
            && s1.bins[i + 1..] == s.bins[i + 1..]
  {
    FindIndexUnique(s.bins, i);
    var s1 := MarkCollectedAndRequeue(s, s.bins[i].id);
    assert s1.bins == s.bins[i := Emptied(s.bins[i])];
  }

  /**
   In the routine queue, unlinking the collected id and appending its
   emptied copy keeps the filtered queue and moves the copy from the
   collected run to the queue.
   */
  lemma RoutineTakeStep(q: seq<Bin>, bins: seq<Bin>, i: nat, area: string)
    requires i < |bins| && HoldsWasteIn(bins[i], area)
    requires forall e | e in q && e.id == bins[i].id :: HoldsWasteIn(e, area)
    ensures Uncollected(RemoveById(q, bins[i].id) + [Emptied(bins[i])], area) + Collected(bins[i + 1..], area)
            == Uncollected(q, area) + Collected(bins[i..], area)
  {
    var e := Emptied(bins[i]);
    UncollectedRemove(q, bins[i].id, area);
    UncollectedAppend(RemoveById(q, bins[i].id), [e], area);
    assert Uncollected([e], area) == [e];
    CollectedStep(bins, area, i);
    assert Uncollected(q, area) + [e] + Collected(bins[i + 1..], area)
        == Uncollected(q, area) + ([e] + Collected(bins[i + 1..], area));
  }

  /** In a valid state every queue entry with the id of the bin at `i` is that bin. */
  lemma LiveCopiesHoldWaste(s: State, i: nat, area: string)
    requires Valid(s) && i < |s.bins| && HoldsWasteIn(s.bins[i], area)
    ensures forall e | e in s.urgent && e.id == s.bins[i].id :: HoldsWasteIn(e, area)
    ensures forall e | e in s.routine && e.id == s.bins[i].id :: HoldsWasteIn(e, area)
  {
    assert s.bins[i] in s.bins;
    forall e | (e in s.urgent || e in s.routine) && e.id == s.bins[i].id
      ensures e == s.bins[i]
    {
      SameIdSameBin(s.bins, e, s.bins[i]);
    }
  }

  // ---------------------------------------------------------------------
  // Pops and the dispatch
  // ---------------------------------------------------------------------

  /** The target a pop reports for a queue copy that is still the live bin. */
  function TargetOf(b: Bin): Target
  {
    Target(b.id, b.area, b.distance, b.fillLevel)
  }

  /**
   In a valid state a pop reports the live bin's fields for the head and
   leaves a valid state.
   */
  lemma PopsKeepValid(s: State)
    requires Valid(s)
    ensures Valid(PopPriorityTarget(s).next) && Valid(PopNormalTarget(s).next)
    ensures |s.urgent| > 0 ==> PopPriorityTarget(s).target == Some(TargetOf(s.urgent[0]))
    ensures |s.routine| > 0 ==> PopNormalTarget(s).target == Some(TargetOf(s.routine[0]))
  {
    if |s.urgent| > 0 {
      QueuedAtMostOnce(s, s.urgent[0]);
      TailKeepsOrder(s.urgent);
      assert s.urgent == [s.urgent[0]] + s.urgent[1..];
      DistinctSub(s.urgent, s.urgent[1..]);
    }
    if |s.routine| > 0 {
      QueuedAtMostOnce(s, s.routine[0]);
      assert s.routine == [s.routine[0]] + s.routine[1..];
      DistinctSub(s.routine, s.routine[1..]);
    }
  }

  /** The dispatcher takes the urgent head when there is one, else the routine head. */
  lemma PickTargetSpec(s: State)
    requires Valid(s)
    ensures var p := PickTarget(s);
            && Valid(p.next) && p.next.bins == s.bins && p.next.last == s.last
            && (p.target.None? <==> |s.urgent| == 0 && |s.routine| == 0)
            && (|s.urgent| > 0 ==> p.target == Some(TargetOf(s.urgent[0])))
            && (|s.urgent| == 0 && |s.routine| > 0 ==> p.target == Some(TargetOf(s.routine[0])))
  {
    PopsKeepValid(s);
  }

  /**
   The record of one dispatch to bin `h` of registry `before`: every bin of
   its area that held waste is emptied and requeued in registry order, no
   other bin changes, and the summary holds the target's fields, the count
   and the round trip at 2 minutes per km each way plus 3 minutes per bin.
   */
  predicate DispatchedTo(before: seq<Bin>, r: State, h: Bin)
  {
    var n := |Collected(before, h.area)|;
    && h in before && h.fillLevel > 0
    && r.last == DispatchSummary(true, h.id, h.area, h.distance, h.fillLevel, n,
                                 4.0 * h.distance + LOAD_TIME * n as real, h.fillLevel >= URGENT_LEVEL)
    && |r.bins| == |before|
    && (forall j | 0 <= j < |before| ::
          r.bins[j] == if HoldsWasteIn(before[j], h.area) then Emptied(before[j]) else before[j])
    && IsSuffix(Collected(before, h.area), r.routine)
  }

  /**
   The queues after a collection of `area` from the state `before`: both
   lose exactly their entries holding waste in `area`, every other entry
   keeps its place, and the emptied copies follow at the routine tail in
   registry order.
   */
  predicate QueuesAfterDispatch(before: State, r: State, area: string)
  {
    && r.urgent == Uncollected(before.urgent, area)
    && r.routine == Uncollected(before.routine, area) + Collected(before.bins, area)
  }

  /** The collection loop from the start leaves the queues as `QueuesAfterDispatch` says. */
  lemma CollectedQueues(s: State, area: string)
    requires Valid(s)
    ensures QueuesAfterDispatch(s, CollectFrom(s, area, 0).0, area)
  {
    CollectFromQueues(s, area, 0);
    assert s.bins[0..] == s.bins;
  }

  /**
   After a dispatch every bin of the target area is empty, and the emptied
   copies at the routine tail are bins of that area.
   */
  lemma DispatchEmptiesArea(before: seq<Bin>, r: State, h: Bin)
    requires DispatchedTo(before, r, h) && forall b | b in before :: WellFormed(b)
    ensures forall b | b in r.bins && b.area == h.area :: b.fillLevel == 0
    ensures forall e | e in Collected(before, h.area) :: e.area == h.area && e.fillLevel == 0
  {
    forall b | b in r.bins && b.area == h.area ensures b.fillLevel == 0 {
      var j :| 0 <= j < |r.bins| && r.bins[j] == b;
      assert before[j] in before;
    }
    CollectedFromArea(before, h.area);
  }

  /** The collected copies are empty bins of the area. */
  lemma {:induction false} CollectedFromArea(bins: seq<Bin>, area: string)
    ensures forall e | e in Collected(bins, area) :: e.area == area && e.fillLevel == 0
  {
    if |bins| > 0 {
      CollectedFromArea(bins[1..], area);
    }
  }

  /** A popped live bin that holds waste has its area collected and the summary recorded. */
  lemma CollectTargetShape(p: Popped, h: Bin)
    requires Valid(p.next) && h in p.next.bins && p.target == Some(TargetOf(h)) && h.fillLevel > 0
    ensures var c := CollectFrom(p.next, h.area, 0);
            CollectTarget(p)
            == c.0.(last := DispatchSummary(true, h.id, h.area, h.distance, h.fillLevel, c.1,
                                            4.0 * h.distance + LOAD_TIME * c.1 as real, h.fillLevel >= URGENT_LEVEL))
  {
    var s := p.next;
    var k :| 0 <= k < |s.bins| && s.bins[k] == h;
    FindIndexUnique(s.bins, k);
    assert FindBin(s.bins, h.id) == Some(h);
  }

  /** A popped bin that holds waste is dispatched to, and the invariant holds afterwards. */
  lemma CollectTargetDispatches(p: Popped, h: Bin)
    requires Valid(p.next) && h in p.next.bins && p.target == Some(TargetOf(h)) && h.fillLevel > 0
    ensures Valid(CollectTarget(p)) && DispatchedTo(p.next.bins, CollectTarget(p), h)
  {
    CollectTargetShape(p, h);
    CollectAndRecord(p.next, h);
  }

  /**
   A dispatch to `h` removes from both queues exactly their entries of the
   area of `h` holding waste; every other entry stays in its place.
   */
  lemma CollectTargetKeepsQueues(p: Popped, h: Bin)
    requires Valid(p.next) && h in p.next.bins && p.target == Some(TargetOf(h)) && h.fillLevel > 0
    ensures QueuesAfterDispatch(p.next, CollectTarget(p), h.area)
  {
    CollectTargetShape(p, h);
    CollectedQueues(p.next, h.area);
  }

  /** Collecting the area of `h` and writing its summary is a valid dispatch to `h`. */
  lemma CollectAndRecord(s: State, h: Bin)
    requires Valid(s) && h in s.bins && h.fillLevel > 0
    ensures var c := CollectFrom(s, h.area, 0);
            var d := c.0.(last := DispatchSummary(true, h.id, h.area, h.distance, h.fillLevel, c.1,
                                                  4.0 * h.distance + LOAD_TIME * c.1 as real, h.fillLevel >= URGENT_LEVEL));
            Valid(d) && DispatchedTo(s.bins, d, h)
  {
    CollectFromBins(s, h.area, 0);
    CollectFromQueue(s, h.area, 0, []);
    assert s.bins[0..] == s.bins;
    assert [] + Collected(s.bins, h.area) == Collected(s.bins, h.area);
    var c := CollectFrom(s, h.area, 0);
    RecordedDispatch(s, h, c.0, c.1);
  }

  /** The collected state with the summary written is a valid dispatch to `h`. */
  lemma RecordedDispatch(s: State, h: Bin, r: State, n: nat)
    requires h in s.bins && h.fillLevel > 0
    requires CollectedFrom(s, h.area, 0, r, n) && s.bins[0..] == s.bins
    requires IsSuffix(Collected(s.bins, h.area), r.routine)
    ensures var d := r.(last := DispatchSummary(true, h.id, h.area, h.distance, h.fillLevel, n,
                                                4.0 * h.distance + LOAD_TIME * n as real, h.fillLevel >= URGENT_LEVEL));
            Valid(d) && DispatchedTo(s.bins, d, h)
  {
  }

  /** A popped bin that is already empty aborts the dispatch: nothing changes. */
  lemma CollectTargetAborts(p: Popped, h: Bin)
    requires Valid(p.next) && h in p.next.bins && p.target == Some(TargetOf(h)) && h.fillLevel == 0
    ensures CollectTarget(p) == p.next
  {
    var s := p.next;
    var k :| 0 <= k < |s.bins| && s.bins[k] == h;
    FindIndexUnique(s.bins, k);
  }

  /** Whatever the state, a dispatch that records no summary changes no bin. */
  lemma AbortedDispatchChangesNoBin(s: State)
    ensures var r := SimulateTruckCollection(s);
            GetLastDispatchSummary(r).None? ==> r.bins == s.bins
  {
  }

  /** Whatever the state, when every bin is empty the dispatch aborts. */
  lemma NothingToCollect(s: State)
    requires forall b | b in s.bins :: b.fillLevel == 0
    ensures var r := SimulateTruckCollection(s);
            GetLastDispatchSummary(r).None? && r.bins == s.bins
  {
  }

  /** The state a dispatch starts from: the summary invalidated, then the queues rebuilt. */
  function Rebuilt(s: State): (r: State)
    ensures r.bins == s.bins && !r.last.valid
  {
    QueueBinsByDistance(s.(last := s.last.(valid := false)))
  }

  /** The rebuilt start state is valid and queues the bins by urgency. */
  lemma RebuiltSpec(s: State)
    requires Valid(s)
    ensures Valid(Rebuilt(s))
    ensures |s.bins| > 0 ==>
              var r := Rebuilt(s);
              && (forall b :: b in r.routine <==> b in s.bins && !IsUrgent(b))
              && (forall b :: b in r.urgent <==> b in s.bins && IsUrgent(b))
              && r.routine == InsertionSort(Select(s.bins, false))
              && SortedByDistance(r.routine)
              && NonIncreasing(r.urgent)
  {
    var s0 := s.(last := s.last.(valid := false));
    QueueBinsByDistanceValid(s0);
    if |s.bins| > 0 {
      QueueBinsByDistanceSpec(s0);
    }
  }

  /**
   The dispatch goes to the head of the rebuilt urgent queue, else of the
   rebuilt routine queue: it is recorded when that bin holds waste and
   aborts, changing no bin, when it is empty.
   */
  lemma SimulateGoesToHead(s: State)
    requires Valid(s)
    ensures var s1 := Rebuilt(s);
            var r := SimulateTruckCollection(s);
            |s1.urgent| + |s1.routine| > 0 ==>
              var h := if |s1.urgent| > 0 then s1.urgent[0] else s1.routine[0];
              && h in s.bins
              && (h.fillLevel > 0 ==> r.last.valid && r.last.targetId == h.id)
              && (h.fillLevel == 0 ==> !r.last.valid && r.bins == s.bins)
  {
    var s1 := Rebuilt(s);
    RebuiltSpec(s);
    PickTargetSpec(s1);
    if |s1.urgent| + |s1.routine| > 0 {
      var h := if |s1.urgent| > 0 then s1.urgent[0] else s1.routine[0];
      assert h in s1.bins;
      if h.fillLevel > 0 {
        CollectTargetDispatches(PickTarget(s1), h);
      } else {
        CollectTargetAborts(PickTarget(s1), h);
      }
    }
  }

  /**
   `simulateTruckCollection` keeps the invariant; it either records a
   summary of a dispatch to a registry bin holding waste, or records
   nothing and changes no bin.
   */
  lemma SimulateTruckCollectionSpec(s: State)
    requires Valid(s)
    ensures var r := SimulateTruckCollection(s);
            && Valid(r)
            && (!r.last.valid ==> r.bins == s.bins)
            && (r.last.valid ==>
                  && FindBin(s.bins, r.last.targetId).Some?
                  && DispatchedTo(s.bins, r, FindBin(s.bins, r.last.targetId).value)
                  && QueuesAfterDispatch(PickTarget(Rebuilt(s)).next, r, r.last.area))
  {
    var s1 := Rebuilt(s);
    RebuiltSpec(s);
    PickTargetSpec(s1);
    var p := PickTarget(s1);
    if p.target.Some? {
      var h := if |s1.urgent| > 0 then s1.urgent[0] else s1.routine[0];
      assert h in s1.bins;
      var k :| 0 <= k < |s.bins| && s.bins[k] == h;
      FindIndexUnique(s.bins, k);
      if h.fillLevel > 0 {
        CollectTargetDispatches(p, h);
        CollectTargetKeepsQueues(p, h);
      } else {
        CollectTargetAborts(p, h);
      }
    }
  }

  /**
   A recorded dispatch names a registry bin, and that bin is the head the
   rebuilt queues offered: the urgent head, else the routine head.
   */
  lemma SummaryNamesHead(s: State)
    requires Valid(s) && SimulateTruckCollection(s).last.valid
    ensures var s1 := Rebuilt(s);
            && |s1.urgent| + |s1.routine| > 0
            && FindBin(s.bins, SimulateTruckCollection(s).last.targetId)
                 == Some(if |s1.urgent| > 0 then s1.urgent[0] else s1.routine[0])
  {
    var s1 := Rebuilt(s);
    var r := SimulateTruckCollection(s);
    SimulateGoesToHead(s);
    var h := if |s1.urgent| > 0 then s1.urgent[0] else s1.routine[0];
    var k :| 0 <= k < |s.bins| && s.bins[k] == h;
    FindIndexUnique(s.bins, k);
  }

  /**
   With an urgent bin in the registry the truck is sent to an urgent bin of
   the highest priority, and the summary says so.
   */
  lemma SimulatePrefersUrgent(s: State, u: Bin)
    requires Valid(s) && u in s.bins && IsUrgent(u)
    ensures var r := SimulateTruckCollection(s);
            && r.last.valid && r.last.wasPriority
            && FindBin(s.bins, r.last.targetId).Some?
            && var h := FindBin(s.bins, r.last.targetId).value;
            && IsUrgent(h)
            && forall c | c in s.bins && IsUrgent(c) :: c.priority <= h.priority
  {
    var s1 := Rebuilt(s);
    RebuiltSpec(s);
    assert u in s1.urgent;
    var h := s1.urgent[0];
    assert h in s1.urgent;
    HeadIsHighest(s1.urgent, s.bins);
    SimulateGoesToHead(s);
    SummaryNamesHead(s);
    SimulateTruckCollectionSpec(s);
  }

  /** The head of an ordered urgent queue holding every urgent bin has the highest priority. */
  lemma HeadIsHighest(q: seq<Bin>, bins: seq<Bin>)
    requires NonIncreasing(q) && |q| > 0
    requires forall c | c in bins && IsUrgent(c) :: c in q
    ensures forall c | c in bins && IsUrgent(c) :: c.priority <= q[0].priority
  {
    forall c | c in bins && IsUrgent(c) ensures c.priority <= q[0].priority {
      var j :| 0 <= j < |q| && q[j] == c;
      assert j == 0 || q[0].priority >= q[j].priority;
    }
  }

  /** The head of a distance-sorted queue holding every bin is a nearest bin. */
  lemma HeadIsNearest(q: seq<Bin>, bins: seq<Bin>)
    requires SortedByDistance(q) && |q| > 0
    requires forall b | b in bins :: b in q
    ensures forall b | b in bins :: q[0].distance <= b.distance
  {
    forall b | b in bins ensures q[0].distance <= b.distance {
      var j :| 0 <= j < |q| && q[j] == b;
      assert j == 0 || q[0].distance <= q[j].distance;
    }
  }

  /** A queue of urgent registry bins is empty when no registry bin is urgent. */
  lemma NothingUrgentQueued(q: seq<Bin>, bins: seq<Bin>)
    requires forall e | e in q :: e in bins && IsUrgent(e)
    ensures (forall b | b in bins :: !IsUrgent(b)) ==> q == []
  {
    if |q| > 0 {
      assert q[0] in q;
    }
  }

  /**
   With no urgent bin the truck is sent to the head of the distance-sorted
   routine queue, a nearest bin; if that bin is empty the dispatch aborts
   whatever the other bins hold.
   */
  lemma SimulateNearestWhenNoneUrgent(s: State)
    requires Valid(s) && |s.bins| > 0 && forall b | b in s.bins :: !IsUrgent(b)
    ensures var first := InsertionSort(Select(s.bins, false));
            var r := SimulateTruckCollection(s);
            && |first| > 0 && first[0] in s.bins
            && (forall b | b in s.bins :: first[0].distance <= b.distance)
            && (first[0].fillLevel > 0 ==> r.last.valid && r.last.targetId == first[0].id)
            && (first[0].fillLevel == 0 ==> !r.last.valid && r.bins == s.bins)
  {
    var s1 := Rebuilt(s);
    RebuiltSpec(s);
    assert s.bins[0] in s1.routine;
    NothingUrgentQueued(s1.urgent, s.bins);
    var h := s1.routine[0];
    assert h in s1.routine;
    HeadIsNearest(s1.routine, s.bins);
    SimulateGoesToHead(s);
  }

  /** Two bins added one after the other to the empty system. */
  function TwoBins(id1: int, area1: string, d1: real, f1: int, id2: int, area2: string, d2: real, f2: int): State
  {
    AddBin(AddBin(Initial, id1, area1, d1, f1).next, id2, area2, d2, f2).next
  }

  /** Adding two valid bins with distinct ids registers both, in order, and keeps the invariant. */
  lemma TwoBinsSpec(id1: int, area1: string, d1: real, f1: int, id2: int, area2: string, d2: real, f2: int)
    requires id1 != id2 && ValidFillLevel(f1) && ValidFillLevel(f2) && d1 >= 0.0 && d2 >= 0.0
    ensures var s := TwoBins(id1, area1, d1, f1, id2, area2, d2, f2);
            Valid(s) && s.bins == [CreateBin(id1, area1, d1, f1), CreateBin(id2, area2, d2, f2)]
  {
    InitialValid();
    AddBinValid(Initial, id1, area1, d1, f1);
    var s0 := AddBin(Initial, id1, area1, d1, f1).next;
    AddBinValid(s0, id2, area2, d2, f2);
  }

  /** The area collection of the two-bin example. */
  lemma ExampleCollected(b1: Bin, b2: Bin)
    requires HoldsWasteIn(b1, "X") && HoldsWasteIn(b2, "X")
    ensures Collected([b1, b2], "X") == [Emptied(b1), Emptied(b2)]
  {
    assert [b1, b2][1..] == [b2];
    assert [b2][1..] == [];
    assert Collected([b2], "X") == [Emptied(b2)] + Collected([], "X");
  }

  /** In the two-bin example the truck goes to the urgent bin 1. */
  lemma ExampleTarget(s: State)
    requires Valid(s) && s.bins == [CreateBin(1, "X", 5.0, 95), CreateBin(2, "X", 5.2, 10)]
    ensures DispatchedTo(s.bins, SimulateTruckCollection(s), s.bins[0])
  {
    SimulatePrefersUrgent(s, s.bins[0]);
    SimulateTruckCollectionSpec(s);
    var r := SimulateTruckCollection(s);
    assert FindBin(s.bins, r.last.targetId).value == s.bins[0];
  }

  /**
   The dispatch of the two-bin example (reachable by `TwoBins`): an urgent
   bin at 5 km and a routine bin at 5.2 km in one area; the truck goes to
   the urgent bin and empties both, in 2*10 + 2*3 minutes.
   */
  lemma DispatchExample(s: State)
    requires Valid(s) && s.bins == [CreateBin(1, "X", 5.0, 95), CreateBin(2, "X", 5.2, 10)]
    ensures var r := SimulateTruckCollection(s);
            && r.last.valid && r.last.targetId == 1 && r.last.wasPriority
            && r.last.binsCollected == 2 && r.last.totalTimeMinutes == 26.0
            && r.bins == [Emptied(s.bins[0]), Emptied(s.bins[1])]
  {
    ExampleTarget(s);
    ExampleSummary(s.bins, SimulateTruckCollection(s));
  }

  /** What a dispatch to the first bin of the two-bin example records and leaves behind. */
  lemma ExampleSummary(before: seq<Bin>, r: State)
    requires before == [CreateBin(1, "X", 5.0, 95), CreateBin(2, "X", 5.2, 10)]
    requires DispatchedTo(before, r, before[0])
    ensures && r.last.valid && r.last.targetId == 1 && r.last.wasPriority
            && r.last.binsCollected == 2 && r.last.totalTimeMinutes == 26.0
            && r.bins == [Emptied(before[0]), Emptied(before[1])]
  {
    ExampleCollected(before[0], before[1]);
    assert r.bins[0] == Emptied(before[0]) && r.bins[1] == Emptied(before[1]);
  }

  // ---------------------------------------------------------------------
  // An empty nearest bin stalls the dispatcher
  // ---------------------------------------------------------------------

  /** No urgent bin, and the nearest bin (the routine head after a rebuild) is empty. */
  predicate Stalled(s: State)
  {
    && Valid(s) && |s.bins| > 0
    && (forall b | b in s.bins :: !IsUrgent(b))
    && var first := InsertionSort(Select(s.bins, false));
    && |first| > 0 && first[0].fillLevel == 0
  }

  /**
   One dispatch from a stalled registry records nothing, changes no bin and
   leaves the registry stalled, so every later dispatch does the same.
   */
  lemma StalledStep(s: State)
    requires Stalled(s)
    ensures var r := SimulateTruckCollection(s);
            r.bins == s.bins && !r.last.valid && Stalled(r)
  {
    SimulateNearestWhenNoneUrgent(s);
    SimulateTruckCollectionSpec(s);
  }

  /**
   Bin 1 is empty at 1 km, bin 2 is half full at 5 km: the registry is
   stalled, so no dispatch ever reaches bin 2; every dispatch rebuilds the
   routine queue with the empty bin 1 at its head and aborts on it.
   */
  lemma DispatchStallExample()
    ensures var s := TwoBins(1, "A", 1.0, 0, 2, "B", 5.0, 50);
            && s.bins[1].fillLevel == 50
            && Stalled(s)
  {
    TwoBinsSpec(1, "A", 1.0, 0, 2, "B", 5.0, 50);
    var s := TwoBins(1, "A", 1.0, 0, 2, "B", 5.0, 50);
    SimulateNearestWhenNoneUrgent(s);
    var first := InsertionSort(Select(s.bins, false));
    assert first[0] == s.bins[0];
  }

  // ---------------------------------------------------------------------
  // The dispatch with empty routine targets skipped
  // ---------------------------------------------------------------------

  /** Pop routine entries until one whose live bin holds waste. */
  function PopNonEmptyNormal(s: State): (r: Popped)
    ensures r.next.bins == s.bins && r.next.last == s.last
    ensures r.target.None? ==> r.next.routine == []
    ensures r.target.Some? ==>
              && FindBin(s.bins, r.target.value.id).Some?
              && FindBin(s.bins, r.target.value.id).value.fillLevel > 0
    decreases |s.routine|
  {
    var p := PopNormalTarget(s);
    match p.target
    case None => p
    case Some(t) =>
      match FindBin(p.next.bins, t.id)
      case Some(b) => if b.fillLevel > 0 then p else PopNonEmptyNormal(p.next)
      case None => PopNonEmptyNormal(p.next)
  }

  /** The urgent head if there is one, else the first routine entry holding waste. */
  function PickNonEmptyTarget(s: State): (r: Popped)
    ensures r.next.bins == s.bins && r.next.last == s.last
  {
    var p := PopPriorityTarget(s);
    if p.target.Some? then p else PopNonEmptyNormal(p.next)
  }

  /** `simulateTruckCollection` with empty routine targets skipped instead of aborting on them. */
  function SimulateSkippingEmpty(s: State): (r: State)
    ensures |r.bins| == |s.bins|
    ensures !r.last.valid ==> r.bins == s.bins
    ensures r.last.valid ==>
              && r.last.totalTimeMinutes == 4.0 * r.last.distance + LOAD_TIME * r.last.binsCollected as real
              && (r.last.wasPriority <==> r.last.startFill >= URGENT_LEVEL)
  {
    CollectTarget(PickNonEmptyTarget(Rebuilt(s)))
  }

  /** The skipping pop finds a routine entry holding waste exactly when there is one. */
  lemma {:induction false} PopNonEmptyNormalSpec(s: State)
    requires Valid(s)
    ensures var p := PopNonEmptyNormal(s);
            && Valid(p.next) && p.next.bins == s.bins && p.next.last == s.last
            && (p.target.None? <==> forall e | e in s.routine :: e.fillLevel == 0)
            && (p.target.Some? ==>
                  && FindBin(s.bins, p.target.value.id).Some?
                  && p.target.value == TargetOf(FindBin(s.bins, p.target.value.id).value)
                  && p.target.value.fillLevel > 0)
    decreases |s.routine|
  {
    if |s.routine| > 0 {
      var h := s.routine[0];
      PopsKeepValid(s);
      QueuedAtMostOnce(s, h);
      var p := PopNormalTarget(s);
      assert s.routine == [h] + s.routine[1..];
      if h.fillLevel == 0 {
        PopNonEmptyNormalSpec(p.next);
      }
    }
  }

  /**
   The corrected dispatch keeps the invariant and is recorded exactly when
   some bin holds waste; a recorded dispatch is one to a registry bin
   holding waste, and one that records nothing changes no bin.
   */
  lemma SimulateSkippingEmptySpec(s: State)
    requires Valid(s)
    ensures var r := SimulateSkippingEmpty(s);
            && Valid(r)
            && (r.last.valid <==> exists b :: b in s.bins && b.fillLevel > 0)
            && (!r.last.valid ==> r.bins == s.bins)
            && (r.last.valid ==>
                  && FindBin(s.bins, r.last.targetId).Some?
                  && DispatchedTo(s.bins, r, FindBin(s.bins, r.last.targetId).value))
  {
    var s1 := Rebuilt(s);
    RebuiltSpec(s);
    PopsKeepValid(s1);
    if |s1.urgent| > 0 {
      var h := s1.urgent[0];
      assert h in s1.urgent;
      var k :| 0 <= k < |s.bins| && s.bins[k] == h;
      FindIndexUnique(s.bins, k);
      CollectTargetDispatches(PickNonEmptyTarget(s1), h);
    } else {
      SkippingEmptyRoutine(s);
    }
  }

  /** The corrected dispatch when the rebuilt urgent queue is empty. */
  lemma SkippingEmptyRoutine(s: State)
    requires Valid(s) && |Rebuilt(s).urgent| == 0
    ensures var r := SimulateSkippingEmpty(s);
            && Valid(r)
            && (r.last.valid <==> exists b :: b in s.bins && b.fillLevel > 0)
            && (!r.last.valid ==> r.bins == s.bins)
            && (r.last.valid ==>
                  && FindBin(s.bins, r.last.targetId).Some?
                  && DispatchedTo(s.bins, r, FindBin(s.bins, r.last.targetId).value))
  {
    var s1 := Rebuilt(s);
    RebuiltSpec(s);
    QueuesNeedBins(s1);
    var p := PopNonEmptyNormal(s1);
    PopNonEmptyNormalSpec(s1);
    assert PickNonEmptyTarget(s1) == p;
    forall b | b in s.bins ensures b in s1.routine {
      assert b in s1.urgent <==> IsUrgent(b);
    }
    if p.target.Some? {
      var h := FindBin(s.bins, p.target.value.id).value;
      CollectTargetDispatches(p, h);
      var k :| 0 <= k < |s.bins| && s.bins[k] == h;
      FindIndexUnique(s.bins, k);
    }
  }

  /**
   The corrected dispatch serves the stalled example (reachable by
   `TwoBins`): it skips the empty bin 1 and empties bin 2.
   */
  lemma SkippingEmptyServesStallExample(s: State)
    requires Valid(s) && s.bins == [CreateBin(1, "A", 1.0, 0), CreateBin(2, "B", 5.0, 50)]
    ensures var r := SimulateSkippingEmpty(s);
            && r.last.valid && r.last.targetId == 2
            && r.bins == [s.bins[0], Emptied(s.bins[1])]
  {
    var r := SimulateSkippingEmpty(s);
    StallExampleTarget(s);
    assert r.bins[0] == s.bins[0] && r.bins[1] == Emptied(s.bins[1]);
  }

  /** In the stalled example the corrected dispatch goes to bin 2. */
  lemma StallExampleTarget(s: State)
    requires Valid(s) && s.bins == [CreateBin(1, "A", 1.0, 0), CreateBin(2, "B", 5.0, 50)]
    ensures DispatchedTo(s.bins, SimulateSkippingEmpty(s), s.bins[1])
  {
    assert s.bins[1] in s.bins;
    SimulateSkippingEmptySpec(s);
    var r := SimulateSkippingEmpty(s);
    assert FindBin(s.bins, r.last.targetId).value == s.bins[1];
  }

  // ---------------------------------------------------------------------
  // The -1 sentinel as written
  // ---------------------------------------------------------------------

  /** A pop the C caller reads as "nothing": an empty queue, or a head whose id is the sentinel -1. */
  predicate ReadAsNothing(p: Popped)
  {
    p.target.None? || p.target.value.id == -1
  }

  /**
   The target selection of `simulateTruckCollection` as written. The pops
   return the bin id, -1 on an empty queue, and the caller only compares
   that id with -1; `validateBinID` accepts -1 as an id. A popped urgent
   head of id -1 is therefore taken for an empty urgent queue, and a
   routine head of id -1 for "all bins are empty", after both were popped.
   */
  function PickTargetAsWritten(s: State): (r: Popped)
    ensures r.next.bins == s.bins && r.next.last == s.last
    ensures r.target.Some? ==> r.target.value.id != -1
    ensures |s.urgent| > 0 && s.urgent[0].id != -1 ==> r == PickTarget(s)
    ensures |s.urgent| == 0 && |s.routine| > 0 && s.routine[0].id != -1 ==> r == PickTarget(s)
    ensures r.target.None? <==>
              && (|s.urgent| == 0 || s.urgent[0].id == -1)
              && (|s.routine| == 0 || s.routine[0].id == -1)
    ensures |s.urgent| > 0 && s.urgent[0].id == -1 && |s.routine| > 0 && s.routine[0].id != -1 ==>
              && r.target == Some(Resolve(s.bins, s.routine[0]))
              && r.next == s.(urgent := s.urgent[1..], routine := s.routine[1..])
    ensures r.target.None? ==>
              r.next == s.(urgent := if |s.urgent| == 0 then [] else s.urgent[1..],
                           routine := if |s.routine| == 0 then [] else s.routine[1..])
  {
    var p := PopPriorityTarget(s);
    if !ReadAsNothing(p) then p
    else
      var q := PopNormalTarget(p.next);
      if !ReadAsNothing(q) then q else Popped(None, q.next)
  }

  /**
   `simulateTruckCollection` as written, with the sentinel selection. The
   rebuild is the corrected one: where the written rebuild reaches the
   crashing middle branch of `priorityenqueue`
   (`Ordering.RebuildCrashReachable`), the code as written has no result.
   */
  function SimulateTruckCollectionAsWritten(s: State): (r: State)
    ensures |r.bins| == |s.bins|
    ensures !r.last.valid ==> r.bins == s.bins
    ensures r.last.valid ==> r.last.targetId != -1
  {
    CollectTarget(PickTargetAsWritten(Rebuilt(s)))
  }

  /**
   Without a bin of id -1 the sentinel is never confused with a bin, and
   the written selection gives exactly the corrected dispatch. Both start
   from the corrected rebuild, so the properties proved of
   `SimulateTruckCollection` hold of the code as written whenever its
   rebuild does not crash.
   */
  lemma AsWrittenAgrees(s: State)
    requires Valid(s) && forall b | b in s.bins :: b.id != -1
    ensures SimulateTruckCollectionAsWritten(s) == SimulateTruckCollection(s)
  {
    var s1 := Rebuilt(s);
    RebuiltSpec(s);
    if |s1.urgent| > 0 {
      assert s1.urgent[0] in s1.bins;
    }
    if |s1.routine| > 0 {
      assert s1.routine[0] in s1.bins;
    }
    PickAsWrittenAgrees(s1);
  }

  /** With no head of id -1 the written selection is the corrected one. */
  lemma PickAsWrittenAgrees(s: State)
    requires |s.urgent| > 0 ==> s.urgent[0].id != -1
    requires |s.routine| > 0 ==> s.routine[0].id != -1
    ensures PickTargetAsWritten(s) == PickTarget(s)
  {
  }

  /**
   A single bin of id -1 in area "A" at 1 km, 95 percent full. The code as
   written pops it, reads the id as "queue empty", finds the routine queue
   empty and records nothing, leaving the waste in place. The corrected dispatch collects it.
   */
  lemma SentinelDispatchExample()
    ensures AddBin(Initial, -1, "A", 1.0, 95).outcome.Done?
    ensures var s := AddBin(Initial, -1, "A", 1.0, 95).next;
            var w := SimulateTruckCollectionAsWritten(s);
            var c := SimulateTruckCollection(s);
            && s.bins == [CreateBin(-1, "A", 1.0, 95)]
            && !w.last.valid && w.bins == s.bins
            && c.last.valid && c.last.targetId == -1
            && c.bins == [Emptied(s.bins[0])]
  {
    var s := AddBin(Initial, -1, "A", 1.0, 95).next;
    InitialValid();
    AddBinValid(Initial, -1, "A", 1.0, 95);
    SentinelWritten(s);
    SentinelCorrected(s);
  }

  /** In a valid registry holding just an urgent bin, the corrected dispatch collects that bin. */
  lemma SentinelCorrected(s: State)
    requires Valid(s) && |s.bins| == 1 && IsUrgent(s.bins[0])
    ensures var c := SimulateTruckCollection(s);
            c.last.valid && c.last.targetId == s.bins[0].id && c.bins == [Emptied(s.bins[0])]
  {
    var b := s.bins[0];
    assert b in s.bins;
    SimulateGoesToHead(s);
    SimulateTruckCollectionSpec(s);
    var c := SimulateTruckCollection(s);
    assert FindBin(s.bins, c.last.targetId).value == b;
    assert HoldsWasteIn(s.bins[0], b.area) && c.bins[0] == Emptied(b);
  }

  /** In a valid registry holding just an urgent bin of id -1, the written dispatch does nothing. */
  lemma SentinelWritten(s: State)
    requires Valid(s) && |s.bins| == 1 && s.bins[0].id == -1 && IsUrgent(s.bins[0])
    ensures !SimulateTruckCollectionAsWritten(s).last.valid
  {
    var s1 := Rebuilt(s);
    RebuiltSpec(s);
    assert s.bins[0] in s1.urgent;
    assert s1.urgent[0] in s.bins;
  }
}
