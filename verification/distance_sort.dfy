/**
 The distance-ordering BST of src/main.c (`insertBST`, the in-order
 drains `inorderBSTtoQueue` and `inorderBSTtoPriorityQueue`), compared
 with a stable insertion sort on distance as the reference definition.
 */
module DistanceSort {
  import opened Wrappers
  import opened Bins
  import opened Queues

  /** A BST node refers to a registry bin; the tree itself owns no bin data. */
  datatype Tree = Leaf | Node(left: Tree, bin: Bin, right: Tree)

  function InOrder(t: Tree): seq<Bin>
  {
    match t
    case Leaf => []
    case Node(l, b, r) => InOrder(l) + [b] + InOrder(r)
  }

  /** `insertBST`: strictly nearer bins go left, equal or farther ones right. */
  function Insert(t: Tree, b: Bin): Tree
  {
    match t
    case Leaf => Node(Leaf, b, Leaf)
    case Node(l, x, rt) =>
      if b.distance < x.distance then Node(Insert(l, b), x, rt)
      else Node(l, x, Insert(rt, b))
  }

  /** The tree built by inserting the bins of `s` from first to last. */
  function Build(s: seq<Bin>): (r: Tree)
    ensures multiset(InOrder(r)) == multiset(s)
  {
    if |s| == 0 then Leaf
    else
      assert s == s[..|s| - 1] + [s[|s| - 1]];
      InsertMultiset(Build(s[..|s| - 1]), s[|s| - 1]);
      Insert(Build(s[..|s| - 1]), s[|s| - 1])
  }

  /** `insertBST` adds exactly the one bin to the tree. */
  lemma {:induction false} InsertMultiset(t: Tree, b: Bin)
    ensures multiset(InOrder(Insert(t, b))) == multiset(InOrder(t)) + multiset{b}
  {
    match t
    case Leaf =>
    case Node(l, x, r) =>
      if b.distance < x.distance {
        assert InOrder(Insert(t, b)) == InOrder(Insert(l, b)) + [x] + InOrder(r);
        InsertMultiset(l, b);
      } else {
        assert InOrder(Insert(t, b)) == InOrder(l) + [x] + InOrder(Insert(r, b));
        InsertMultiset(r, b);
      }
  }

  predicate SortedByDistance(s: seq<Bin>)
  {
    forall i, j :: 0 <= i < j < |s| ==> s[i].distance <= s[j].distance
  }

  /** Reference: place `b` after every entry no farther than it. */
  function InsertStable(s: seq<Bin>, b: Bin): seq<Bin>
  {
    if |s| == 0 then [b]
    else if b.distance < s[0].distance then [b] + s
    else [s[0]] + InsertStable(s[1..], b)
  }

  /** Reference: stable insertion sort on distance, taking bins first to last. */
  function InsertionSort(s: seq<Bin>): seq<Bin>
  {
    if |s| == 0 then []
    else InsertStable(InsertionSort(s[..|s| - 1]), s[|s| - 1])
  }

  /** The entries of `s` at distance exactly `v`, in order. */
  function AtDistance(s: seq<Bin>, v: real): seq<Bin>
  {
    if |s| == 0 then []
    else (if s[0].distance == v then [s[0]] else []) + AtDistance(s[1..], v)
  }

  // ---------------------------------------------------------------------
  // The reference sort is a sorted, stable permutation
  // ---------------------------------------------------------------------

  lemma {:induction false} InsertStableMultiset(s: seq<Bin>, b: Bin)
    ensures multiset(InsertStable(s, b)) == multiset(s) + multiset{b}
  {
    if |s| > 0 && b.distance >= s[0].distance {
      InsertStableMultiset(s[1..], b);
      assert s == [s[0]] + s[1..];
    }
  }

  lemma {:induction false} InsertionSortMultiset(s: seq<Bin>)
    ensures multiset(InsertionSort(s)) == multiset(s)
  {
    if |s| > 0 {
      InsertionSortMultiset(s[..|s| - 1]);
      InsertStableMultiset(InsertionSort(s[..|s| - 1]), s[|s| - 1]);
      assert s == s[..|s| - 1] + [s[|s| - 1]];
    }
  }

  /** Every entry of `InsertStable(s, b)` is `b` or an entry of `s`. */
  lemma {:induction false} InsertStableFrom(s: seq<Bin>, b: Bin, i: int)
    requires 0 <= i < |InsertStable(s, b)|
    ensures InsertStable(s, b)[i] == b || InsertStable(s, b)[i] in s
  {
    if |s| > 0 && b.distance >= s[0].distance && i > 0 {
      InsertStableFrom(s[1..], b, i - 1);
    }
  }

  lemma {:induction false} InsertStableSorted(s: seq<Bin>, b: Bin)
    requires SortedByDistance(s)
    ensures SortedByDistance(InsertStable(s, b))
  {
    if |s| > 0 && b.distance >= s[0].distance {
      var t := s[1..];
      assert SortedByDistance(t);
      InsertStableSorted(t, b);
      var r := InsertStable(t, b);
      var u := [s[0]] + r;
      forall i, j | 0 <= i < j < |u|
        ensures u[i].distance <= u[j].distance
      {
        if i == 0 {
          InsertStableFrom(t, b, j - 1);
        } else {
          assert u[i] == r[i - 1] && u[j] == r[j - 1];
        }
      }
    }
  }

  lemma {:induction false} InsertionSortSorted(s: seq<Bin>)
    ensures SortedByDistance(InsertionSort(s))
  {
    if |s| > 0 {
      InsertionSortSorted(s[..|s| - 1]);
      InsertStableSorted(InsertionSort(s[..|s| - 1]), s[|s| - 1]);
    }
  }

  lemma {:induction false} AtDistanceAppend(a: seq<Bin>, c: seq<Bin>, v: real)
    ensures AtDistance(a + c, v) == AtDistance(a, v) + AtDistance(c, v)
  {
    if |a| == 0 {
      assert a + c == c;
    } else {
      var h := if a[0].distance == v then [a[0]] else [];
      assert (a + c)[0] == a[0];
      assert (a + c)[1..] == a[1..] + c;
      AtDistanceAppend(a[1..], c, v);
      assert AtDistance(a + c, v) == h + (AtDistance(a[1..], v) + AtDistance(c, v));
    }
  }

  lemma {:induction false} AtDistanceNone(s: seq<Bin>, v: real)
    requires forall i :: 0 <= i < |s| ==> s[i].distance > v
    ensures AtDistance(s, v) == []
  {
    if |s| > 0 {
      AtDistanceNone(s[1..], v);
    }
  }

  /** `InsertStable` puts `b` after every entry at its own distance. */
  lemma {:induction false} InsertStableAtDistance(s: seq<Bin>, b: Bin, v: real)
    requires SortedByDistance(s)
    ensures AtDistance(InsertStable(s, b), v)
            == AtDistance(s, v) + (if b.distance == v then [b] else [])
  {
    if |s| == 0 {
    } else if b.distance < s[0].distance {
      assert ([b] + s)[0] == b;
      assert ([b] + s)[1..] == s;
      if b.distance == v {
        AtDistanceNone(s, v);
      }
    } else {
      var t := s[1..];
      var h := if s[0].distance == v then [s[0]] else [];
      assert SortedByDistance(t);
      InsertStableAtDistance(t, b, v);
      var u := [s[0]] + InsertStable(t, b);
      assert u[0] == s[0];
      assert u[1..] == InsertStable(t, b);
      assert AtDistance(u, v) == h + AtDistance(InsertStable(t, b), v);
    }
  }

  /** Stability: bins at equal distance keep their original relative order. */
  lemma {:induction false} InsertionSortStable(s: seq<Bin>, v: real)
    ensures AtDistance(InsertionSort(s), v) == AtDistance(s, v)
  {
    if |s| > 0 {
      var init := s[..|s| - 1];
      var last := s[|s| - 1];
      InsertionSortStable(init, v);
      InsertionSortSorted(init);
      InsertStableAtDistance(InsertionSort(init), last, v);
      assert s == init + [last];
      AtDistanceAppend(init, [last], v);
    }
  }

  // ---------------------------------------------------------------------
  // The BST in-order walk is that sort
  // ---------------------------------------------------------------------

  lemma {:induction false} InsertStableRightOf(a: seq<Bin>, c: seq<Bin>, b: Bin)
    requires forall i :: 0 <= i < |a| ==> a[i].distance <= b.distance
    ensures InsertStable(a + c, b) == a + InsertStable(c, b)
  {
    if |a| == 0 {
      assert a + c == c;
    } else {
      assert (a + c)[1..] == a[1..] + c;
      InsertStableRightOf(a[1..], c, b);
    }
  }

  lemma {:induction false} InsertStableLeftOf(a: seq<Bin>, c: seq<Bin>, b: Bin)
    requires |c| > 0 && b.distance < c[0].distance
    ensures InsertStable(a + c, b) == InsertStable(a, b) + c
  {
    if |a| == 0 {
      assert a + c == c;
    } else {
      assert (a + c)[1..] == a[1..] + c;
      InsertStableLeftOf(a[1..], c, b);
    }
  }

  /** Inserting into the BST inserts stably into its in-order sequence. */
  lemma {:induction false} InOrderInsert(t: Tree, b: Bin)
    requires SortedByDistance(InOrder(t))
    ensures InOrder(Insert(t, b)) == InsertStable(InOrder(t), b)
  {
    match t
    case Leaf =>
    case Node(l, x, r) =>
      var L := InOrder(l);
      var R := InOrder(r);
      SortedParts(L, x, R);
      if b.distance < x.distance {
        assert InOrder(Insert(t, b)) == InOrder(Insert(l, b)) + [x] + R;
        InOrderInsert(l, b);
        assert L + [x] + R == L + ([x] + R);
        InsertStableLeftOf(L, [x] + R, b);
      } else {
        assert InOrder(Insert(t, b)) == L + [x] + InOrder(Insert(r, b));
        InOrderInsert(r, b);
        InsertStableRightOf(L + [x], R, b);
      }
  }

  /** The parts of a sorted in-order sequence around a node. */
  lemma SortedParts(L: seq<Bin>, x: Bin, R: seq<Bin>)
    requires SortedByDistance(L + [x] + R)
    ensures SortedByDistance(L) && SortedByDistance(R)
    ensures forall i :: 0 <= i < |L + [x]| ==> (L + [x])[i].distance <= x.distance
  {
    var s := L + [x] + R;
    forall i, j | 0 <= i < j < |L| ensures L[i].distance <= L[j].distance {
      assert L[i] == s[i] && L[j] == s[j];
    }
    forall i, j | 0 <= i < j < |R| ensures R[i].distance <= R[j].distance {
      assert R[i] == s[|L| + 1 + i] && R[j] == s[|L| + 1 + j];
    }
    forall i | 0 <= i < |L + [x]| ensures (L + [x])[i].distance <= x.distance {
      assert (L + [x])[i] == s[i] && x == s[|L|];
    }
  }

  /**
   Draining the BST built from `s` yields `s` sorted by non-decreasing
   distance, with equal distances in the order of `s`: a stable sort.
   */
  lemma {:induction false} BuildInOrder(s: seq<Bin>)
    ensures InOrder(Build(s)) == InsertionSort(s)
    ensures SortedByDistance(InOrder(Build(s)))
  {
    if |s| > 0 {
      BuildInOrder(s[..|s| - 1]);
      InOrderInsert(Build(s[..|s| - 1]), s[|s| - 1]);
    }
    InsertionSortSorted(s);
  }

  /** The three facts that pin down a stable sort. */
  lemma BstSortIsStable(s: seq<Bin>, v: real)
    ensures SortedByDistance(InOrder(Build(s)))
    ensures multiset(InOrder(Build(s))) == multiset(s)
    ensures AtDistance(InOrder(Build(s)), v) == AtDistance(s, v)
  {
    BuildInOrder(s);
    InsertionSortMultiset(s);
    InsertionSortStable(s, v);
  }

  // ---------------------------------------------------------------------
  // Draining into the queues
  // ---------------------------------------------------------------------

  /** `inorderBSTtoQueue`: enqueue left subtree, node, right subtree. */
  function DrainToQueue(t: Tree, q: seq<Bin>): (r: seq<Bin>)
    ensures r == q + InOrder(t)
  {
    match t
    case Leaf => q
    case Node(l, b, rt) =>
      var a := Enqueue(DrainToQueue(l, q), b);
      assert a == q + InOrder(l) + [b];
      var r := DrainToQueue(rt, a);
      assert r == (q + InOrder(l) + [b]) + InOrder(rt);
      assert (q + InOrder(l) + [b]) + InOrder(rt) == q + (InOrder(l) + [b] + InOrder(rt));
      r
  }

  /** `inorderBSTtoPriorityQueue`: priority-enqueue in in-order sequence. */
  function DrainToPriority(t: Tree, q: seq<Bin>): (r: seq<Bin>)
    ensures multiset(r) == multiset(q) + multiset(InOrder(t))
    ensures NonIncreasing(q) ==> NonIncreasing(r)
  {
    match t
    case Leaf => q
    case Node(l, b, rt) => DrainToPriority(rt, PriorityEnqueue(DrainToPriority(l, q), b))
  }

  /**
   `inorderBSTtoPriorityQueue` with `priorityenqueue` as written: `None`
   once an insertion reaches the NULL dereference of its middle branch.
   */
  function DrainToPriorityAsWritten(t: Tree, q: seq<Bin>): (r: Option<seq<Bin>>)
    ensures r.Some? ==> multiset(r.value) == multiset(q) + multiset(InOrder(t))
  {
    match t
    case Leaf => Some(q)
    case Node(l, b, rt) =>
      match DrainToPriorityAsWritten(l, q)
      case None => None
      case Some(q1) =>
        match PriorityEnqueueAsWritten(q1, b)
        case None => None
        case Some(q2) => DrainToPriorityAsWritten(rt, q2)
  }

  /** When the written drain does not crash, it fills the urgent queue exactly as the corrected one. */
  lemma {:induction false} DrainAsWrittenWhenDefined(t: Tree, q: seq<Bin>)
    requires DrainToPriorityAsWritten(t, q).Some?
    ensures DrainToPriorityAsWritten(t, q).value == DrainToPriority(t, q)
  {
    match t
    case Leaf =>
    case Node(l, b, rt) =>
      DrainAsWrittenWhenDefined(l, q);
      var q1 := DrainToPriority(l, q);
      AsWrittenWhenDefined(q1, b);
      DrainAsWrittenWhenDefined(rt, PriorityEnqueue(q1, b));
  }
}
