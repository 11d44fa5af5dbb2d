/**
 The bin-registry operations of src/main.c: `classify`, `addBin`,
 `deleteBin`, `updateFillLevel` and `markBinCollectedAndRequeue`, each a
 function from the state before to the state after.
 */
module Registry {
  import opened Wrappers
  import opened Bins
  import opened BinLists
  import opened Queues
  import opened SystemState

  /** The failures the C functions report (each prints its own message and returns 0). */
  datatype Error = DuplicateId | FillOutOfRange | NegativeDistance | NoBins | NotFound

  datatype Outcome = Done | Failed(error: Error)

  /** The C return value (1 or 0) together with the state afterwards. */
  datatype Step = Step(outcome: Outcome, next: State)

  /** `classify`: urgent bins go to the priority queue, the rest to the FIFO. */
  function Classify(s: State, b: Bin): (r: State)
    ensures r.bins == s.bins && r.last == s.last
    ensures IsUrgent(b) ==> r.routine == s.routine
    ensures IsUrgent(b) && NonIncreasing(s.urgent) ==> NonIncreasing(r.urgent)
    ensures IsUrgent(b) ==> multiset(r.urgent) == multiset(s.urgent) + multiset{b}
    ensures !IsUrgent(b) ==> r.urgent == s.urgent && r.routine == s.routine + [b]
  {
    if b.fillLevel >= URGENT_LEVEL then s.(urgent := PriorityEnqueue(s.urgent, b))
    else s.(routine := Enqueue(s.routine, b))
  }

  /**
   `addBin`: rejects a taken id, then a fill level outside 0..100, then a
   negative distance, in that order; otherwise appends the new bin to the
   registry and classifies it.
   */
  function AddBin(s: State, id: int, area: string, distance: real, fillLevel: int): (r: Step)
    ensures r.outcome.Done? <==> ValidateBinId(s.bins, id) && ValidFillLevel(fillLevel) && distance >= 0.0
    ensures r.outcome.Failed? ==> r.next == s
    ensures r.outcome == Failed(DuplicateId) <==> HasId(s.bins, id)
    ensures r.outcome == Failed(FillOutOfRange) <==> !HasId(s.bins, id) && !ValidFillLevel(fillLevel)
    ensures r.outcome.Done? ==>
              var b := CreateBin(id, area, distance, fillLevel);
              && r.next.bins == s.bins + [b]
              && r.next.last == s.last
              && (IsUrgent(b) ==> r.next.urgent == PriorityEnqueue(s.urgent, b) && r.next.routine == s.routine)
              && (!IsUrgent(b) ==> r.next.urgent == s.urgent && r.next.routine == s.routine + [b])
  {
    if !ValidateBinId(s.bins, id) then Step(Failed(DuplicateId), s)
    else if !ValidFillLevel(fillLevel) then Step(Failed(FillOutOfRange), s)
    else if distance < 0.0 then Step(Failed(NegativeDistance), s)
    else
      var b := CreateBin(id, area, distance, fillLevel);
      Step(Done, Classify(s.(bins := s.bins + [b]), b))
  }

  /**
   `deleteBin`: fails on an empty registry; otherwise unlinks the id from
   both queues, then from the registry, failing if it was not there.
   */
  function DeleteBin(s: State, id: int): (r: Step)
    ensures r.outcome.Done? <==> HasId(s.bins, id)
    ensures |s.bins| == 0 ==> r == Step(Failed(NoBins), s)
    ensures r.next.last == s.last
    ensures |s.bins| > 0 ==>
              r.next.routine == RemoveById(s.routine, id) && r.next.urgent == RemoveById(s.urgent, id)
    ensures r.outcome.Done? ==>
              var k := FindIndex(s.bins, id).value; r.next.bins == s.bins[..k] + s.bins[k + 1..]
    ensures r.outcome.Failed? ==> r.next.bins == s.bins
  {
    if |s.bins| == 0 then Step(Failed(NoBins), s)
    else
      var s1 := s.(routine := RemoveById(s.routine, id), urgent := RemoveById(s.urgent, id));
      match FindIndex(s.bins, id)
      case None => Step(Failed(NotFound), s1)
      case Some(_) => Step(Done, s1.(bins := RemoveById(s.bins, id)))
  }

  /** The registry bin at `k` after its fill level became `fillLevel`. */
  function Refilled(b: Bin, fillLevel: int): (r: Bin)
    ensures r.id == b.id && r.area == b.area && r.distance == b.distance
    ensures r.fillLevel == fillLevel
    ensures WellFormed(b) && ValidFillLevel(fillLevel) ==> WellFormed(r)
  {
    b.(fillLevel := fillLevel, priority := PriorityOf(fillLevel, b.distance))
  }

  /** Unlink `id` from both queues and overwrite its registry entry. */
  function Detach(s: State, k: nat, b: Bin): State
    requires k < |s.bins|
  {
    State(s.bins[k := b], RemoveById(s.routine, b.id), RemoveById(s.urgent, b.id), s.last)
  }

  /**
   `updateFillLevel`: checks the range first, then that the id exists;
   then unlinks the bin from both queues, stores the new level and
   recomputed priority, and classifies the bin again.
   */
  function UpdateFillLevel(s: State, id: int, fillLevel: int): (r: Step)
    ensures r.outcome.Done? <==> ValidFillLevel(fillLevel) && HasId(s.bins, id)
    ensures r.outcome == Failed(FillOutOfRange) <==> !ValidFillLevel(fillLevel)
    ensures r.outcome.Failed? ==> r.next == s
    ensures |r.next.bins| == |s.bins| && r.next.last == s.last
    ensures r.outcome.Done? ==>
              var k := FindIndex(s.bins, id).value;
              var b := Refilled(s.bins[k], fillLevel);
              && r.next.bins == s.bins[k := b]
              && (IsUrgent(b) ==>
                    && r.next.urgent == PriorityEnqueue(RemoveById(s.urgent, id), b)
                    && r.next.routine == RemoveById(s.routine, id))
              && (!IsUrgent(b) ==>
                    && r.next.urgent == RemoveById(s.urgent, id)
                    && r.next.routine == RemoveById(s.routine, id) + [b])
  {
    if !ValidFillLevel(fillLevel) then Step(Failed(FillOutOfRange), s)
    else
      match FindIndex(s.bins, id)
      case None => Step(Failed(NotFound), s)
      case Some(k) =>
        var b := Refilled(s.bins[k], fillLevel);
        Step(Done, Classify(Detach(s, k, b), b))
  }

  /**
   `markBinCollectedAndRequeue`: unlinks the bin from both queues, empties
   it, and puts it at the tail of the routine queue without classifying.
   */
  function MarkCollectedAndRequeue(s: State, id: int): (r: State)
    ensures |r.bins| == |s.bins| && r.last == s.last
    ensures !HasId(s.bins, id) ==> r == s
    ensures HasId(s.bins, id) ==>
              var k := FindIndex(s.bins, id).value;
              && r.bins == s.bins[k := Emptied(s.bins[k])]
              && r.routine == RemoveById(s.routine, id) + [Emptied(s.bins[k])]
              && r.urgent == RemoveById(s.urgent, id)
  {
    match FindIndex(s.bins, id)
    case None => s
    case Some(k) =>
      var b := Emptied(s.bins[k]);
      State(s.bins[k := b], Enqueue(RemoveById(s.routine, id), b), RemoveById(s.urgent, id), s.last)
  }

  // ---------------------------------------------------------------------
  // The invariant is kept
  // ---------------------------------------------------------------------

  /** Classifying a registry bin that is in neither queue keeps the invariant. */
  lemma ClassifyKeepsValid(s: State, b: Bin)
    requires Valid(s) && b in s.bins && b !in s.routine && b !in s.urgent
    ensures Valid(Classify(s, b))
    ensures b in Classify(s, b).urgent <==> IsUrgent(b)
    ensures b in Classify(s, b).routine <==> !IsUrgent(b)
  {
    var r := Classify(s, b);
    if IsUrgent(b) {
      DistinctAdd(s.urgent, b, r.urgent);
      MembersAdd(s.urgent, b, r.urgent);
    } else {
      DistinctAdd(s.routine, b, r.routine);
      MembersAdd(s.routine, b, r.routine);
    }
  }

  /** After unlinking an id, a queue of live entries only holds entries the overwrite does not touch. */
  lemma RemovedStaysLive(q: seq<Bin>, bins: seq<Bin>, k: nat, b: Bin)
    requires Distinct(q) && UniqueIds(bins) && k < |bins| && b.id == bins[k].id
    requires forall e | e in q :: e in bins
    ensures forall e | e in RemoveById(q, b.id) :: e in bins[k := b] && e in q
    ensures Distinct(RemoveById(q, b.id)) && !HasId(RemoveById(q, b.id), b.id)
  {
    var r := RemoveById(q, b.id);
    RemoveByIdClears(q, bins, b.id);
    RemovedFrom(q, b.id);
    NoIdNoEntry(r, b.id);
    forall e | e in r
      ensures e in bins[k := b] && e in q
    {
      OtherSurvivesOverwrite(bins, k, b, e);
    }
  }

  /** An entry with another id survives overwriting position `k`. */
  lemma OtherSurvivesOverwrite(bins: seq<Bin>, k: nat, b: Bin, e: Bin)
    requires k < |bins| && e in bins && e.id != bins[k].id
    ensures e in bins[k := b]
  {
    var j :| 0 <= j < |bins| && bins[j] == e;
    assert bins[k := b][j] == e;
  }

  /** Overwriting a registry entry with the same id keeps ids unique and bins well formed. */
  lemma OverwriteKeepsBins(bins: seq<Bin>, k: nat, b: Bin)
    requires UniqueIds(bins) && (forall x | x in bins :: WellFormed(x))
    requires k < |bins| && b.id == bins[k].id && WellFormed(b)
    ensures UniqueIds(bins[k := b]) && (forall x | x in bins[k := b] :: WellFormed(x))
    ensures b in bins[k := b]
  {
    var nb := bins[k := b];
    assert nb[k] == b;
    forall x | x in nb
      ensures WellFormed(x)
    {
      var j :| 0 <= j < |nb| && nb[j] == x;
      if j != k {
        assert x == bins[j];
      }
    }
    forall i, j | 0 <= i < |nb| && 0 <= j < |nb| && nb[i].id == nb[j].id
      ensures i == j
    {
      assert nb[i].id == bins[i].id && nb[j].id == bins[j].id;
    }
  }

  /** Overwriting a registry entry and unlinking its id from the queues keeps the invariant. */
  lemma DetachKeepsValid(s: State, k: nat, b: Bin)
    requires Valid(s) && k < |s.bins| && b.id == s.bins[k].id && WellFormed(b)
    ensures Valid(Detach(s, k, b))
    ensures b in Detach(s, k, b).bins
    ensures !HasId(Detach(s, k, b).routine, b.id) && !HasId(Detach(s, k, b).urgent, b.id)
  {
    RemovedStaysLive(s.routine, s.bins, k, b);
    RemovedStaysLive(s.urgent, s.bins, k, b);
    RemoveByIdKeepsOrder(s.urgent, b.id);
    OverwriteKeepsBins(s.bins, k, b);
  }

  /**
   `addBin` keeps the invariant; on success the new bin is in the urgent
   queue exactly when its fill level is at least 90, and in the routine
   queue otherwise.
   */
  lemma AddBinValid(s: State, id: int, area: string, distance: real, fillLevel: int)
    requires Valid(s)
    ensures var r := AddBin(s, id, area, distance, fillLevel);
            && Valid(r.next)
            && (r.outcome.Done? ==>
                  var b := CreateBin(id, area, distance, fillLevel);
                  && (b in r.next.urgent <==> fillLevel >= URGENT_LEVEL)
                  && (b in r.next.routine <==> fillLevel < URGENT_LEVEL))
  {
    var r := AddBin(s, id, area, distance, fillLevel);
    if r.outcome.Done? {
      var b := CreateBin(id, area, distance, fillLevel);
      var s1 := s.(bins := s.bins + [b]);
      assert b !in s.bins;
      assert forall e | e in s.routine :: e in s1.bins;
      assert forall e | e in s.urgent :: e in s1.bins;
      assert UniqueIds(s1.bins) by {
        assert forall i | 0 <= i < |s.bins| :: s.bins[i].id != id;
        forall i, j | 0 <= i < |s1.bins| && 0 <= j < |s1.bins| && s1.bins[i].id == s1.bins[j].id
          ensures i == j
        {
          if i < |s.bins| && j < |s.bins| {
            assert s1.bins[i] == s.bins[i] && s1.bins[j] == s.bins[j];
          }
        }
      }
      assert Valid(s1);
      ClassifyKeepsValid(s1, b);
    }
  }

  /** After unlinking an id, a queue of live entries only holds entries that survive deleting it. */
  lemma RemovedSurvivesDelete(q: seq<Bin>, bins: seq<Bin>, k: nat)
    requires Distinct(q) && UniqueIds(bins) && k < |bins|
    requires forall e | e in q :: e in bins
    ensures forall e | e in RemoveById(q, bins[k].id) :: e in bins[..k] + bins[k + 1..] && e in q
    ensures Distinct(RemoveById(q, bins[k].id)) && !HasId(RemoveById(q, bins[k].id), bins[k].id)
  {
    var id := bins[k].id;
    var r := RemoveById(q, id);
    RemoveByIdClears(q, bins, id);
    RemovedFrom(q, id);
    NoIdNoEntry(r, id);
    forall e | e in r
      ensures e in bins[..k] + bins[k + 1..] && e in q
    {
      OtherSurvivesDelete(bins, k, e);
    }
  }

  /** An entry with another id survives deleting position `k`. */
  lemma OtherSurvivesDelete(bins: seq<Bin>, k: nat, e: Bin)
    requires k < |bins| && e in bins && e.id != bins[k].id
    ensures e in bins[..k] + bins[k + 1..]
  {
    var nb := bins[..k] + bins[k + 1..];
    var j :| 0 <= j < |bins| && bins[j] == e;
    if j < k {
      assert nb[j] == e;
    } else {
      assert nb[j - 1] == e;
    }
  }

  /** Deleting a registry entry keeps ids unique and bins well formed, and its id is gone. */
  lemma DeleteKeepsBins(bins: seq<Bin>, k: nat)
    requires UniqueIds(bins) && (forall x | x in bins :: WellFormed(x)) && k < |bins|
    ensures var nb := bins[..k] + bins[k + 1..];
            UniqueIds(nb) && (forall x | x in nb :: WellFormed(x)) && !HasId(nb, bins[k].id)
  {
    var nb := bins[..k] + bins[k + 1..];
    forall i, j | 0 <= i < |nb| && 0 <= j < |nb| && nb[i].id == nb[j].id
      ensures i == j
    {
      var i' := if i < k then i else i + 1;
      var j' := if j < k then j else j + 1;
      assert nb[i] == bins[i'] && nb[j] == bins[j'];
    }
    forall i | 0 <= i < |nb|
      ensures nb[i].id != bins[k].id && WellFormed(nb[i])
    {
      var i' := if i < k then i else i + 1;
      assert nb[i] == bins[i'];
    }
  }

  /** `deleteBin` keeps the invariant, and a failed delete changes nothing. */
  lemma DeleteBinValid(s: State, id: int)
    requires Valid(s)
    ensures var r := DeleteBin(s, id);
            && Valid(r.next)
            && (r.outcome.Failed? ==> r.next == s)
            && !HasId(r.next.bins, id)
            && !HasId(r.next.routine, id)
            && !HasId(r.next.urgent, id)
  {
    QueuesNeedBins(s);
    if |s.bins| > 0 {
      if FindIndex(s.bins, id).None? {
        DeleteAbsent(s, id);
      } else {
        DeletePresent(s, id);
      }
    }
  }

  /** Deleting an id no bin carries leaves the state as it was. */
  lemma DeleteAbsent(s: State, id: int)
    requires Valid(s) && |s.bins| > 0 && !HasId(s.bins, id)
    ensures DeleteBin(s, id).next == s
    ensures !HasId(s.routine, id) && !HasId(s.urgent, id)
  {
    NoIdNoEntry(s.bins, id);
    assert !HasId(s.routine, id) by {
      forall i | 0 <= i < |s.routine| ensures s.routine[i].id != id {
        assert s.routine[i] in s.routine;
      }
    }
    assert !HasId(s.urgent, id) by {
      forall i | 0 <= i < |s.urgent| ensures s.urgent[i].id != id {
        assert s.urgent[i] in s.urgent;
      }
    }
  }

  /** Deleting a registered id keeps the invariant and leaves no node with that id. */
  lemma DeletePresent(s: State, id: int)
    requires Valid(s) && FindIndex(s.bins, id).Some?
    ensures var n := DeleteBin(s, id).next;
            Valid(n) && !HasId(n.bins, id) && !HasId(n.routine, id) && !HasId(n.urgent, id)
  {
    var k := FindIndex(s.bins, id).value;
    RemovedSurvivesDelete(s.routine, s.bins, k);
    RemovedSurvivesDelete(s.urgent, s.bins, k);
    RemoveByIdKeepsOrder(s.urgent, id);
    DeleteKeepsBins(s.bins, k);
  }

  /**
   `updateFillLevel` keeps the invariant; on success the bin carries the
   new level and recomputed priority and sits in exactly the queue its new
   level calls for.
   */
  lemma UpdateFillLevelValid(s: State, id: int, fillLevel: int)
    requires Valid(s)
    ensures var r := UpdateFillLevel(s, id, fillLevel);
            && Valid(r.next)
            && (r.outcome.Done? ==>
                  var k := FindIndex(s.bins, id).value;
                  var b := r.next.bins[k];
                  && b.id == id && b.fillLevel == fillLevel
                  && b.priority == PriorityOf(fillLevel, b.distance)
                  && (b in r.next.urgent <==> fillLevel >= URGENT_LEVEL)
                  && (b in r.next.routine <==> fillLevel < URGENT_LEVEL)
                  && (forall e | e in r.next.routine + r.next.urgent && e.id == id :: e == b))
  {
    var r := UpdateFillLevel(s, id, fillLevel);
    if r.outcome.Done? {
      var k := FindIndex(s.bins, id).value;
      var b := Refilled(s.bins[k], fillLevel);
      DetachKeepsValid(s, k, b);
      var d := Detach(s, k, b);
      ClassifyKeepsValid(d, b);
      forall e | e in r.next.routine + r.next.urgent && e.id == id
        ensures e == b
      {
        assert e in r.next.bins;
        FindIndexUnique(r.next.bins, k);
        SameIdSameBin(r.next.bins, e, b);
      }
    }
  }

  /** Marking a bin collected is the same as updating its fill level to 0. */
  lemma MarkCollectedIsUpdateToZero(s: State, id: int)
    requires HasId(s.bins, id)
    ensures MarkCollectedAndRequeue(s, id) == UpdateFillLevel(s, id, 0).next
  {
  }

  /** `markBinCollectedAndRequeue` keeps the invariant. */
  lemma MarkCollectedValid(s: State, id: int)
    requires Valid(s)
    ensures Valid(MarkCollectedAndRequeue(s, id))
  {
    if HasId(s.bins, id) {
      MarkCollectedIsUpdateToZero(s, id);
      UpdateFillLevelValid(s, id, 0);
    }
  }

  /**
   The crashing urgent list arises from the registry: two `addBin` calls
   from the empty system (fill 90 at 34 km, then at 36 km) queue priorities
   10 and 0, and a third `addBin` (fill 90 at 35 km) passes every check and
   reaches the middle branch of `priorityenqueue`, which dereferences NULL.
   */
  lemma AsWrittenCrashReachable()
    ensures var b1 := CreateBin(1, "A", 34.0, 90);
            var b2 := CreateBin(2, "A", 36.0, 90);
            var b3 := CreateBin(3, "A", 35.0, 90);
            var s := AddBin(AddBin(Initial, 1, "A", 34.0, 90).next, 2, "A", 36.0, 90).next;
            && s.urgent == [b1, b2]
            && ValidateBinId(s.bins, 3) && ValidFillLevel(90)
            && PriorityEnqueueAsWritten(s.urgent, b3).None?
  {
    AsWrittenCrashExample();
    var b1 := CreateBin(1, "A", 34.0, 90);
    var b2 := CreateBin(2, "A", 36.0, 90);
    CrashFirstAdd();
    var s1 := AddBin(Initial, 1, "A", 34.0, 90).next;
    CrashSecondAdd(s1);
  }

  /** The first `addBin` of the crash example queues bin 1 alone. */
  lemma CrashFirstAdd()
    ensures var b1 := CreateBin(1, "A", 34.0, 90);
            var s1 := AddBin(Initial, 1, "A", 34.0, 90).next;
            s1.bins == [b1] && s1.urgent == [b1]
  {
    var b1 := CreateBin(1, "A", 34.0, 90);
    AddUrgent(Initial, 1, "A", 34.0, 90);
    assert PriorityEnqueue([], b1) == [b1];
  }

  /** The second `addBin` of the crash example queues bin 2 behind bin 1. */
  lemma CrashSecondAdd(s1: State)
    requires s1.bins == [CreateBin(1, "A", 34.0, 90)] && s1.urgent == [CreateBin(1, "A", 34.0, 90)]
    ensures var b1 := CreateBin(1, "A", 34.0, 90);
            var b2 := CreateBin(2, "A", 36.0, 90);
            var s := AddBin(s1, 2, "A", 36.0, 90).next;
            s.bins == [b1, b2] && s.urgent == [b1, b2]
  {
    var b1 := CreateBin(1, "A", 34.0, 90);
    var b2 := CreateBin(2, "A", 36.0, 90);
    PriorityExactAtWholeDistance(90, 34);
    PriorityExactAtWholeDistance(90, 36);
    AddUrgent(s1, 2, "A", 36.0, 90);
    assert PriorityEnqueue([b1], b2) == [b1, b2];
  }

  /** An accepted `addBin` of an urgent bin appends it and inserts it into the urgent list. */
  lemma AddUrgent(s: State, id: int, area: string, distance: real, fillLevel: int)
    requires ValidateBinId(s.bins, id) && ValidFillLevel(fillLevel) && distance >= 0.0
    requires fillLevel >= URGENT_LEVEL
    ensures var b := CreateBin(id, area, distance, fillLevel);
            AddBin(s, id, area, distance, fillLevel).next
              == State(s.bins + [b], s.routine, PriorityEnqueue(s.urgent, b), s.last)
  {
  }

  /**
   Three `addBin` calls from the empty system: fill 100 at 39 km (score 5),
   then fill 90 at 34 km (score 10) and at 36 km (score 0). Each written
   urgent insertion takes its front or its tail branch, so none of them
   crashes, and the urgent list is [10, 5, 0].
   */
  lemma RebuildCrashAdds()
    ensures var a := CreateBin(1, "A", 34.0, 90);
            var b := CreateBin(2, "A", 36.0, 90);
            var c := CreateBin(3, "A", 39.0, 100);
            var s := AddBin(AddBin(AddBin(Initial, 3, "A", 39.0, 100).next, 1, "A", 34.0, 90).next, 2, "A", 36.0, 90).next;
            && s.bins == [c, a, b] && s.urgent == [a, c, b]
            && PriorityEnqueueAsWritten([], c) == Some([c])
            && PriorityEnqueueAsWritten([c], a) == Some([a, c])
            && PriorityEnqueueAsWritten([a, c], b) == Some([a, c, b])
  {
    RebuildFirstAdd();
    var s1 := AddBin(Initial, 3, "A", 39.0, 100).next;
    RebuildSecondAdd(s1);
    RebuildThirdAdd(AddBin(s1, 1, "A", 34.0, 90).next);
    RebuildAddsWritten();
  }

  /** Scores 10, 0 and 5 of the three bins of `RebuildCrashAdds`. */
  lemma RebuildScores()
    ensures CreateBin(1, "A", 34.0, 90).priority == 10
    ensures CreateBin(2, "A", 36.0, 90).priority == 0
    ensures CreateBin(3, "A", 39.0, 100).priority == 5
  {
    PriorityExactAtWholeDistance(90, 34);
    PriorityExactAtWholeDistance(90, 36);
    PriorityExactAtWholeDistance(100, 39);
  }

  /** The first `addBin` queues bin 3 alone. */
  lemma RebuildFirstAdd()
    ensures var c := CreateBin(3, "A", 39.0, 100);
            var s1 := AddBin(Initial, 3, "A", 39.0, 100).next;
            s1.bins == [c] && s1.urgent == [c]
  {
    var c := CreateBin(3, "A", 39.0, 100);
    AddUrgent(Initial, 3, "A", 39.0, 100);
    assert PriorityEnqueue([], c) == [c];
  }

  /** The second `addBin` puts bin 1 (score 10) in front of bin 3 (score 5). */
  lemma RebuildSecondAdd(s1: State)
    requires s1.bins == [CreateBin(3, "A", 39.0, 100)] && s1.urgent == [CreateBin(3, "A", 39.0, 100)]
    ensures var a := CreateBin(1, "A", 34.0, 90);
            var c := CreateBin(3, "A", 39.0, 100);
            var s2 := AddBin(s1, 1, "A", 34.0, 90).next;
            s2.bins == [c, a] && s2.urgent == [a, c]
  {
    RebuildScores();
    AddUrgent(s1, 1, "A", 34.0, 90);
  }

  /** The third `addBin` puts bin 2 (score 0) at the tail. */
  lemma RebuildThirdAdd(s2: State)
    requires var a := CreateBin(1, "A", 34.0, 90);
             var c := CreateBin(3, "A", 39.0, 100);
             s2.bins == [c, a] && s2.urgent == [a, c]
    ensures var a := CreateBin(1, "A", 34.0, 90);
            var b := CreateBin(2, "A", 36.0, 90);
            var c := CreateBin(3, "A", 39.0, 100);
            var s3 := AddBin(s2, 2, "A", 36.0, 90).next;
            s3.bins == [c, a, b] && s3.urgent == [a, c, b]
  {
    RebuildScores();
    AddUrgent(s2, 2, "A", 36.0, 90);
  }

  /** The written insertions of the three `addBin` calls all succeed. */
  lemma RebuildAddsWritten()
    ensures var a := CreateBin(1, "A", 34.0, 90);
            var b := CreateBin(2, "A", 36.0, 90);
            var c := CreateBin(3, "A", 39.0, 100);
            && PriorityEnqueueAsWritten([], c) == Some([c])
            && PriorityEnqueueAsWritten([c], a) == Some([a, c])
            && PriorityEnqueueAsWritten([a, c], b) == Some([a, c, b])
  {
    var a := CreateBin(1, "A", 34.0, 90);
    var b := CreateBin(2, "A", 36.0, 90);
    var c := CreateBin(3, "A", 39.0, 100);
    RebuildScores();
    assert [c][0] == c && [a, c][0] == a && [a, c][1] == c;
    assert [a] + [c] == [a, c] && [a, c] + [b] == [a, c, b];
  }
}
