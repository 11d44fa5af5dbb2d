/**
 `queueBinsByDistance` of src/main.c: clear both queues, build one BST of
 the urgent bins and one of the rest in registry order, and drain each
 in order into its queue.
 */
module Ordering {
  import opened Wrappers
  import opened Bins
  import opened BinLists
  import opened Queues
  import opened DistanceSort
  import opened SystemState
  import opened Registry

  /** `clearQueue` and `clearPriorityQueue`. */
  function ClearQueues(s: State): (r: State)
    ensures r.routine == [] && r.urgent == []
    ensures r.bins == s.bins && r.last == s.last
  {
    s.(routine := [], urgent := [])
  }

  /**
   The two trees are built in one pass over the registry; as an insertion
   into one tree never touches the other, each equals the tree built from
   its own share of the registry, in registry order.
   */
  function QueueBinsByDistance(s: State): (r: State)
    ensures r.bins == s.bins && r.last == s.last
    ensures |s.bins| == 0 ==> r == s
  {
    if |s.bins| == 0 then s
    else
      var cleared := ClearQueues(s);
      var bstPriority := Build(Select(s.bins, true));
      var bstNormal := Build(Select(s.bins, false));
      var withUrgent := cleared.(urgent := DrainToPriority(bstPriority, cleared.urgent));
      withUrgent.(routine := DrainToQueue(bstNormal, withUrgent.routine))
  }

  /** The routine share: the bins below 90, stably sorted by distance. */
  lemma RebuiltRoutine(s: State)
    requires |s.bins| > 0
    ensures var r := QueueBinsByDistance(s);
            && r.routine == InsertionSort(Select(s.bins, false))
            && multiset(r.routine) == multiset(Select(s.bins, false))
            && SortedByDistance(r.routine)
            && (forall v :: AtDistance(r.routine, v) == AtDistance(Select(s.bins, false), v))
  {
    var normal := Select(s.bins, false);
    var r := QueueBinsByDistance(s);
    assert r.routine == [] + InOrder(Build(normal));
    assert [] + InOrder(Build(normal)) == InOrder(Build(normal));
    BuildInOrder(normal);
    InsertionSortMultiset(normal);
    forall v
      ensures AtDistance(r.routine, v) == AtDistance(normal, v)
    {
      InsertionSortStable(normal, v);
    }
  }

  /** The urgent share: the bins at 90 or more, in non-increasing priority. */
  lemma RebuiltUrgent(s: State)
    requires |s.bins| > 0
    ensures var r := QueueBinsByDistance(s);
            && multiset(r.urgent) == multiset(Select(s.bins, true))
            && NonIncreasing(r.urgent)
  {
    var urgent := Select(s.bins, true);
    BuildInOrder(urgent);
    InsertionSortMultiset(urgent);
  }

  /**
   On a non-empty registry the rebuild leaves in the routine queue exactly
   the bins below 90, stably sorted by distance, and in the urgent queue
   exactly the bins at 90 or more, in non-increasing priority.
   */
  lemma QueueBinsByDistanceSpec(s: State)
    requires |s.bins| > 0
    ensures var r := QueueBinsByDistance(s);
            && multiset(r.routine) == multiset(Select(s.bins, false))
            && multiset(r.urgent) == multiset(Select(s.bins, true))
            && (forall b :: b in r.routine <==> b in s.bins && !IsUrgent(b))
            && (forall b :: b in r.urgent <==> b in s.bins && IsUrgent(b))
            && r.routine == InsertionSort(Select(s.bins, false))
            && SortedByDistance(r.routine)
            && (forall v :: AtDistance(r.routine, v) == AtDistance(Select(s.bins, false), v))
            && NonIncreasing(r.urgent)
  {
    var r := QueueBinsByDistance(s);
    RebuiltRoutine(s);
    RebuiltUrgent(s);
    forall b
      ensures b in r.routine <==> b in s.bins && !IsUrgent(b)
    {
      assert b in r.routine <==> b in multiset(Select(s.bins, false));
    }
    forall b
      ensures b in r.urgent <==> b in s.bins && IsUrgent(b)
    {
      assert b in r.urgent <==> b in multiset(Select(s.bins, true));
    }
  }

  /**
   The rebuild keeps the invariant, and afterwards every registry bin is
   queued exactly once, in the queue its fill level calls for.
   */
  lemma QueueBinsByDistanceValid(s: State)
    requires Valid(s)
    ensures Valid(QueueBinsByDistance(s))
    ensures |s.bins| > 0 ==>
              forall b | b in s.bins ::
                var r := QueueBinsByDistance(s);
                if IsUrgent(b) then multiset(r.urgent)[b] == 1 && b !in r.routine
                else multiset(r.routine)[b] == 1 && b !in r.urgent
  {
    if |s.bins| > 0 {
      var r := QueueBinsByDistance(s);
      QueueBinsByDistanceSpec(s);
      UniqueIdsDistinct(s.bins);
      DistinctSub(s.bins, Select(s.bins, false));
      DistinctSub(s.bins, Select(s.bins, true));
      DistinctSub(Select(s.bins, false), r.routine);
      DistinctSub(Select(s.bins, true), r.urgent);
      forall b | b in s.bins
        ensures if IsUrgent(b) then multiset(r.urgent)[b] == 1 && b !in r.routine
                else multiset(r.routine)[b] == 1 && b !in r.urgent
      {
        if IsUrgent(b) {
          assert b in multiset(r.urgent);
        } else {
          assert b in multiset(r.routine);
        }
      }
    }
  }

  /**
   The written rebuild reaches the NULL dereference of `priorityenqueue`
   from a registry whose own insertions all succeeded. The three bins of
   `Registry.RebuildCrashAdds` were queued in the order c, a, b; the
   urgent tree of `queueBinsByDistance` drains them in distance order
   a, b, c, and c (score 5) then falls between 10 and 0.
   */
  lemma RebuildCrashReachable()
    ensures var a := CreateBin(1, "A", 34.0, 90);
            var b := CreateBin(2, "A", 36.0, 90);
            var c := CreateBin(3, "A", 39.0, 100);
            var s := AddBin(AddBin(AddBin(Initial, 3, "A", 39.0, 100).next, 1, "A", 34.0, 90).next, 2, "A", 36.0, 90).next;
            && s.bins == [c, a, b] && s.urgent == [a, c, b]
            && InOrder(Build(Select(s.bins, true))) == [a, b, c]
            && DrainToPriorityAsWritten(Build(Select(s.bins, true)), []).None?
  {
    RebuildCrashAdds();
    RebuildCrashTree();
  }

  /** The urgent tree of the three bins and the written drain of it. */
  lemma RebuildCrashTree()
    ensures var a := CreateBin(1, "A", 34.0, 90);
            var b := CreateBin(2, "A", 36.0, 90);
            var c := CreateBin(3, "A", 39.0, 100);
            var t := Build(Select([c, a, b], true));
            InOrder(t) == [a, b, c] && DrainToPriorityAsWritten(t, []).None?
  {
    RebuildCrashSelect();
    RebuildCrashBuild();
    RebuildCrashDrain();
  }

  /** All three bins are urgent. */
  lemma RebuildCrashSelect()
    ensures var a := CreateBin(1, "A", 34.0, 90);
            var b := CreateBin(2, "A", 36.0, 90);
            var c := CreateBin(3, "A", 39.0, 100);
            Select([c, a, b], true) == [c, a, b]
  {
    SelectAllUrgent(CreateBin(3, "A", 39.0, 100), CreateBin(1, "A", 34.0, 90), CreateBin(2, "A", 36.0, 90));
  }

  /** Three urgent bins are all selected, in order. */
  lemma SelectAllUrgent(x: Bin, y: Bin, z: Bin)
    requires IsUrgent(x) && IsUrgent(y) && IsUrgent(z)
    ensures Select([x, y, z], true) == [x, y, z]
  {
    SelectKeepsOrder([x], [y, z], true);
    SelectKeepsOrder([y], [z], true);
    SelectOne(x, true);
    SelectOne(y, true);
    SelectOne(z, true);
    assert [x] + [y, z] == [x, y, z] && [y] + [z] == [y, z];
  }

  /** Inserted in the order 39, 34, 36 km, the tree has 39 at the root, 34 left of it and 36 right of 34. */
  lemma RebuildCrashBuild()
    ensures var a := CreateBin(1, "A", 34.0, 90);
            var b := CreateBin(2, "A", 36.0, 90);
            var c := CreateBin(3, "A", 39.0, 100);
            Build([c, a, b]) == Node(Node(Leaf, a, Node(Leaf, b, Leaf)), c, Leaf)
  {
    BuildFarNearMiddle(CreateBin(3, "A", 39.0, 100), CreateBin(1, "A", 34.0, 90), CreateBin(2, "A", 36.0, 90));
  }

  /** The farthest bin first, then a nearer one, then one between them: a root with a left chain. */
  lemma BuildFarNearMiddle(x: Bin, y: Bin, z: Bin)
    requires y.distance < x.distance && y.distance <= z.distance < x.distance
    ensures Build([x, y, z]) == Node(Node(Leaf, y, Node(Leaf, z, Leaf)), x, Leaf)
  {
    var t1 := Node(Leaf, x, Leaf);
    var t2 := Node(Node(Leaf, y, Leaf), x, Leaf);
    assert [x][..0] == [] && [x][0] == x;
    assert Build([x]) == Insert(Leaf, x) == t1;
    assert [x, y][..1] == [x] && [x, y][1] == y;
    assert Build([x, y]) == Insert(t1, y) == t2;
    assert [x, y, z][..2] == [x, y] && [x, y, z][2] == z;
    assert Insert(Node(Leaf, y, Leaf), z) == Node(Leaf, y, Insert(Leaf, z));
    assert Build([x, y, z]) == Insert(t2, z) == Node(Insert(Node(Leaf, y, Leaf), z), x, Leaf);
  }

  /** The in-order drain inserts 10, then 0 at the tail, then 5 into the middle branch. */
  lemma RebuildCrashDrain()
    ensures var a := CreateBin(1, "A", 34.0, 90);
            var b := CreateBin(2, "A", 36.0, 90);
            var c := CreateBin(3, "A", 39.0, 100);
            var t := Node(Node(Leaf, a, Node(Leaf, b, Leaf)), c, Leaf);
            InOrder(t) == [a, b, c] && DrainToPriorityAsWritten(t, []).None?
  {
    var a := CreateBin(1, "A", 34.0, 90);
    var b := CreateBin(2, "A", 36.0, 90);
    var c := CreateBin(3, "A", 39.0, 100);
    var l := Node(Leaf, a, Node(Leaf, b, Leaf));
    assert InOrder(l) == [a, b];
    RebuildCrashLeftDrain();
    RebuildCrashMiddle();
    assert DrainToPriorityAsWritten(Node(l, c, Leaf), []) == None;
  }

  /** Score 5 lies below the head 10 of [10, 0] and not below its tail 0. */
  lemma RebuildCrashMiddle()
    ensures var a := CreateBin(1, "A", 34.0, 90);
            var b := CreateBin(2, "A", 36.0, 90);
            var c := CreateBin(3, "A", 39.0, 100);
            PriorityEnqueueAsWritten([a, b], c).None?
  {
    var a := CreateBin(1, "A", 34.0, 90);
    var b := CreateBin(2, "A", 36.0, 90);
    var c := CreateBin(3, "A", 39.0, 100);
    RebuildScores();
    assert [a, b][0] == a && [a, b][1] == b;
    AsWrittenMiddleBranchDereferencesNull([a, b], c);
  }

  /** The left subtree drains to the urgent list [10, 0] without a crash. */
  lemma RebuildCrashLeftDrain()
    ensures var a := CreateBin(1, "A", 34.0, 90);
            var b := CreateBin(2, "A", 36.0, 90);
            DrainToPriorityAsWritten(Node(Leaf, a, Node(Leaf, b, Leaf)), []) == Some([a, b])
  {
    var a := CreateBin(1, "A", 34.0, 90);
    var b := CreateBin(2, "A", 36.0, 90);
    RebuildScores();
    assert PriorityEnqueueAsWritten([], a) == Some([a]);
    assert [a][0] == a && [a] + [b] == [a, b];
    assert PriorityEnqueueAsWritten([a], b) == Some([a, b]);
  }
}
