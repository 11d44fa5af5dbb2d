/**
 The two dispatch queues of src/main.c: the routine FIFO (`enqueue`) and
 the urgent list kept in descending priority (`priorityenqueue`). Both hold
 copies of bins; removal by id is `BinLists.RemoveById`.
 */
module Queues {
  import opened Wrappers
  import opened Bins
  import opened BinLists

  /** `enqueue`: the copy goes to the tail. */
  function Enqueue(q: seq<Bin>, b: Bin): (r: seq<Bin>)
    ensures |r| == |q| + 1 && r[..|q|] == q && r[|q|] == b
  {
    q + [b]
  }

  /** Priorities never increase from head to tail. */
  predicate NonIncreasing(q: seq<Bin>)
  {
    forall i, j :: 0 <= i < j < |q| ==> q[i].priority >= q[j].priority
  }

  /**
   The scan the middle branch of `priorityenqueue` evidently intends: the
   position of the first entry whose priority is strictly below `b`'s.
   */
  function FirstLower(q: seq<Bin>, b: Bin, i: nat): (k: nat)
    requires i <= |q|
    ensures i <= k <= |q|
    ensures forall j :: i <= j < k ==> q[j].priority >= b.priority
    ensures k < |q| ==> q[k].priority < b.priority
    decreases |q| - i
  {
    if i == |q| || q[i].priority < b.priority then i
    else FirstLower(q, b, i + 1)
  }

  /** Linking a new node in at position `k` (at the tail if `k` is past it). */
  function InsertAt(q: seq<Bin>, k: nat, b: Bin): (r: seq<Bin>)
    ensures multiset(r) == multiset(q) + multiset{b}
    ensures |r| == |q| + 1
    ensures k <= |q| ==> r[..k] == q[..k] && r[k] == b && r[k + 1..] == q[k..]
  {
    if k <= |q| then
      assert q == q[..k] + q[k..];
      q[..k] + [b] + q[k..]
    else q + [b]
  }

  /** Inserting between a higher-or-equal and a lower-or-equal neighbour keeps the order. */
  lemma InsertAtKeepsOrder(q: seq<Bin>, k: nat, b: Bin)
    requires NonIncreasing(q) && k <= |q|
    requires k > 0 ==> q[k - 1].priority >= b.priority
    requires k < |q| ==> q[k].priority <= b.priority
    ensures NonIncreasing(InsertAt(q, k, b))
  {
    var r := InsertAt(q, k, b);
    forall i, j | 0 <= i < j < |r|
      ensures r[i].priority >= r[j].priority
    {
      InsertAtIndex(q, k, b, i);
      InsertAtIndex(q, k, b, j);
      if i < k && j == k {
        assert q[i].priority >= q[k - 1].priority;
      } else if i == k && j > k {
        assert q[k].priority >= q[j - 1].priority;
      }
    }
  }

  /** Entry `i` after linking `b` in at position `k`. */
  lemma InsertAtIndex(q: seq<Bin>, k: nat, b: Bin, i: nat)
    requires k <= |q| && i <= |q|
    ensures InsertAt(q, k, b)[i] == if i < k then q[i] else if i == k then b else q[i - 1]
  {
    var r := InsertAt(q, k, b);
    if i < k {
      assert r[..k][i] == r[i];
    } else if i > k {
      assert r[k + 1..][i - k - 1] == r[i];
    }
  }

  /**
   `priorityenqueue`, with the middle branch as intended: an entry at least
   as high as the head goes in front (ties go first), one below the tail
   goes last, anything else goes before the first strictly lower entry.
   */
  function PriorityEnqueue(q: seq<Bin>, b: Bin): (r: seq<Bin>)
    ensures multiset(r) == multiset(q) + multiset{b}
    ensures |r| == |q| + 1
    ensures NonIncreasing(q) ==> NonIncreasing(r)
    ensures |q| > 0 && b.priority >= q[0].priority ==> r == [b] + q
    ensures |q| > 0 && b.priority < q[0].priority && b.priority < q[|q| - 1].priority ==> r == q + [b]
  {
    if |q| == 0 then [b]
    else if b.priority >= q[0].priority then
      assert NonIncreasing(q) ==> NonIncreasing(InsertAt(q, 0, b)) by {
        if NonIncreasing(q) { InsertAtKeepsOrder(q, 0, b); }
      }
      InsertAt(q, 0, b)
    else if b.priority < q[|q| - 1].priority then
      assert NonIncreasing(q) ==> NonIncreasing(InsertAt(q, |q|, b)) by {
        if NonIncreasing(q) { InsertAtKeepsOrder(q, |q|, b); }
      }
      InsertAt(q, |q|, b)
    else
      var k := FirstLower(q, b, 0);
      assert NonIncreasing(q) ==> NonIncreasing(InsertAt(q, k, b)) by {
        if NonIncreasing(q) { InsertAtKeepsOrder(q, k, b); }
      }
      InsertAt(q, k, b)
  }

  /**
   The position at which the written scan of `priorityenqueue` stops: it
   advances while the NEW priority is at least the current entry's.
   */
  function ScanStop(q: seq<Bin>, b: Bin, i: nat): (k: nat)
    requires i <= |q|
    ensures i <= k <= |q|
    ensures forall j :: i <= j < k ==> b.priority >= q[j].priority
    ensures k < |q| ==> b.priority < q[k].priority
    decreases |q| - i
  {
    if i == |q| || b.priority < q[i].priority then i
    else ScanStop(q, b, i + 1)
  }

  /**
   `priorityenqueue` exactly as written; `None` stands for the NULL
   dereference of `prev` when the scan stops before advancing.
   */
  function PriorityEnqueueAsWritten(q: seq<Bin>, b: Bin): (r: Option<seq<Bin>>)
    ensures r.Some? ==> multiset(r.value) == multiset(q) + multiset{b}
  {
    if |q| == 0 then Some([b])
    else if b.priority >= q[0].priority then Some([b] + q)
    else if b.priority < q[|q| - 1].priority then Some(q + [b])
    else
      var k := ScanStop(q, b, 0);
      if k == 0 then None else Some(InsertAt(q, k, b))
  }

  /** Whenever the written insertion does not crash, it is the corrected one. */
  lemma AsWrittenWhenDefined(q: seq<Bin>, b: Bin)
    requires PriorityEnqueueAsWritten(q, b).Some?
    ensures PriorityEnqueueAsWritten(q, b).value == PriorityEnqueue(q, b)
  {
    if |q| == 0 {
      assert PriorityEnqueue(q, b) == [b];
    } else if b.priority < q[0].priority && b.priority >= q[|q| - 1].priority {
      AsWrittenMiddleBranchDereferencesNull(q, b);
    }
  }

  /**
   Whenever the written code reaches its middle branch (new priority below
   the head and not below the tail) it dereferences NULL.
   */
  lemma AsWrittenMiddleBranchDereferencesNull(q: seq<Bin>, b: Bin)
    requires |q| > 0
    requires b.priority < q[0].priority && b.priority >= q[|q| - 1].priority
    ensures PriorityEnqueueAsWritten(q, b).None?
  {
  }

  /**
   A concrete input: three well-formed bins at fill 90, at 34, 36 and 35 km,
   score 10, 0 and 5. With the first two queued, the third crashes the
   written code; the corrected insertion puts it between them.
   */
  lemma AsWrittenCrashExample()
    ensures var hi := CreateBin(1, "A", 34.0, 90);
            var lo := CreateBin(2, "A", 36.0, 90);
            var mid := CreateBin(3, "A", 35.0, 90);
            && WellFormed(hi) && WellFormed(lo) && WellFormed(mid)
            && hi.priority == 10 && lo.priority == 0 && mid.priority == 5
            && PriorityEnqueueAsWritten([hi, lo], mid).None?
            && PriorityEnqueue([hi, lo], mid) == [hi, mid, lo]
  {
    PriorityExactAtWholeDistance(90, 34);
    PriorityExactAtWholeDistance(90, 36);
    PriorityExactAtWholeDistance(90, 35);
    var hi := CreateBin(1, "A", 34.0, 90);
    var lo := CreateBin(2, "A", 36.0, 90);
    var mid := CreateBin(3, "A", 35.0, 90);
    assert FirstLower([hi, lo], mid, 0) == 1;
    assert [hi, lo][1..] == [lo];
  }

  /**
   Where the corrected insertion puts the new entry: after every entry at
   least as high, before every entry strictly lower (except that a tie
   with the head goes in front).
   */
  lemma PriorityEnqueuePosition(q: seq<Bin>, b: Bin) returns (k: nat)
    requires NonIncreasing(q)
    ensures k <= |q| && PriorityEnqueue(q, b) == q[..k] + [b] + q[k..]
    ensures forall j :: 0 <= j < k ==> q[j].priority >= b.priority
    ensures forall j :: k <= j < |q| ==> q[j].priority <= b.priority
  {
    k := EnqueuePosition(q, b);
    EnqueueAtPosition(q, b);
    EnqueuePositionOrder(q, b);
  }

  /** Where `PriorityEnqueue` links the new node in. */
  function EnqueuePosition(q: seq<Bin>, b: Bin): nat
  {
    if |q| == 0 || b.priority >= q[0].priority then 0
    else if b.priority < q[|q| - 1].priority then |q|
    else FirstLower(q, b, 0)
  }

  lemma EnqueueAtPosition(q: seq<Bin>, b: Bin)
    ensures EnqueuePosition(q, b) <= |q|
    ensures PriorityEnqueue(q, b) == InsertAt(q, EnqueuePosition(q, b), b)
  {
  }

  /** Higher-or-equal entries stay in front of the new node, lower-or-equal ones behind it. */
  lemma EnqueuePositionOrder(q: seq<Bin>, b: Bin)
    requires NonIncreasing(q)
    ensures var k := EnqueuePosition(q, b);
            && (forall j :: 0 <= j < k ==> q[j].priority >= b.priority)
            && (forall j :: k <= j < |q| ==> q[j].priority <= b.priority)
  {
    if |q| > 0 {
      var k := EnqueuePosition(q, b);
      if b.priority >= q[0].priority {
        assert forall j :: 0 <= j < |q| ==> q[j].priority <= q[0].priority;
      } else if b.priority < q[|q| - 1].priority {
        assert forall j :: 0 <= j < |q| ==> q[j].priority >= q[|q| - 1].priority;
      } else {
        assert forall j :: k <= j < |q| ==> q[j].priority <= q[k].priority;
      }
    }
  }

  /** Unlinking a node keeps the urgent list in order. */
  lemma RemoveByIdKeepsOrder(q: seq<Bin>, id: int)
    requires NonIncreasing(q)
    ensures NonIncreasing(RemoveById(q, id))
  {
    if FindIndex(q, id).Some? {
      var k := FindIndex(q, id).value;
      var r := RemoveById(q, id);
      forall i, j | 0 <= i < j < |r|
        ensures r[i].priority >= r[j].priority
      {
        DeleteAtIndex(q, k, i);
        DeleteAtIndex(q, k, j);
      }
    }
  }

  /** Entry `i` after unlinking the node at position `k`. */
  lemma DeleteAtIndex(q: seq<Bin>, k: nat, i: nat)
    requires k < |q| && i < |q| - 1
    ensures (q[..k] + q[k + 1..])[i] == if i < k then q[i] else q[i + 1]
  {
  }

  /** Popping the head keeps the urgent list in order. */
  lemma TailKeepsOrder(q: seq<Bin>)
    requires NonIncreasing(q) && |q| > 0
    ensures NonIncreasing(q[1..])
  {
  }
}
