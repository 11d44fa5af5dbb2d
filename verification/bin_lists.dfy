/**
 Operations on ordered lists of bins, shared by the registry (the `head`
 list of src/main.c) and the two dispatch queues: lookup by id, unlinking
 the first node with an id, and filtering by urgency.
 */
module BinLists {
  import opened Wrappers
  import opened Bins

  /** No two bins share an identifier. */
  predicate UniqueIds(s: seq<Bin>)
  {
    forall i, j :: 0 <= i < |s| && 0 <= j < |s| && s[i].id == s[j].id ==> i == j
  }

  /** No entry occurs twice. */
  predicate Distinct(s: seq<Bin>)
  {
    forall x | x in multiset(s) :: multiset(s)[x] == 1
  }

  /** Some entry carries identifier `id`. */
  predicate HasId(s: seq<Bin>, id: int)
  {
    exists i :: 0 <= i < |s| && s[i].id == id
  }

  /** Position of the first node with identifier `id`, scanning from the head. */
  function FindIndex(s: seq<Bin>, id: int): (r: Option<nat>)
    ensures r.Some? ==> r.value < |s| && s[r.value].id == id
    ensures r.Some? ==> forall j :: 0 <= j < r.value ==> s[j].id != id
    ensures r.None? <==> !HasId(s, id)
  {
    if |s| == 0 then None
    else if s[0].id == id then Some(0)
    else
      match FindIndex(s[1..], id)
      case None => None
      case Some(k) => Some(k + 1)
  }

  /** `findBinByID`: the first bin with identifier `id`, if any. */
  function FindBin(s: seq<Bin>, id: int): (r: Option<Bin>)
    ensures r.Some? ==> r.value in s && r.value.id == id
    ensures r.None? <==> !HasId(s, id)
  {
    match FindIndex(s, id)
    case None => None
    case Some(k) => Some(s[k])
  }

  /** `validateBinID`: true exactly when `id` is still free. */
  function ValidateBinId(s: seq<Bin>, id: int): (free: bool)
    ensures free <==> forall b | b in s :: b.id != id
  {
    FindIndex(s, id).None?
  }

  /**
   Unlinking the first node with identifier `id` (`deleteBin`,
   `deletefromqueue`, `deletefrompriorityqueue`); no node, no change.
   */
  function RemoveById(s: seq<Bin>, id: int): (r: seq<Bin>)
    ensures FindIndex(s, id).None? ==> r == s
    ensures FindIndex(s, id).Some? ==>
              var k := FindIndex(s, id).value; r == s[..k] + s[k + 1..]
  {
    if |s| == 0 then []
    else if s[0].id == id then s[1..]
    else [s[0]] + RemoveById(s[1..], id)
  }

  /** The bins whose urgency is `urgent`, in their original order. */
  function Select(s: seq<Bin>, urgent: bool): (r: seq<Bin>)
    ensures forall b :: b in r <==> b in s && IsUrgent(b) == urgent
    ensures multiset(r) <= multiset(s)
  {
    if |s| == 0 then []
    else
      assert s == [s[0]] + s[1..];
      if IsUrgent(s[0]) == urgent then [s[0]] + Select(s[1..], urgent)
      else Select(s[1..], urgent)
  }

  /**
   Selection keeps relative order: selecting from two consecutive pieces
   gives the two selections one after the other.
   */
  lemma {:induction false} SelectKeepsOrder(a: seq<Bin>, c: seq<Bin>, urgent: bool)
    ensures Select(a + c, urgent) == Select(a, urgent) + Select(c, urgent)
  {
    if |a| == 0 {
      assert a + c == c;
    } else {
      var ac := a + c;
      assert ac[0] == a[0] && ac[1..] == a[1..] + c;
      SelectKeepsOrder(a[1..], c, urgent);
      if IsUrgent(a[0]) == urgent {
        assert Select(ac, urgent) == [a[0]] + Select(a[1..] + c, urgent);
      } else {
        assert Select(ac, urgent) == Select(a[1..] + c, urgent);
      }
    }
  }

  /** A single bin is kept exactly when its urgency matches. */
  lemma SelectOne(b: Bin, urgent: bool)
    ensures Select([b], urgent) == if IsUrgent(b) == urgent then [b] else []
  {
    assert [b][1..] == [];
  }

  /** `s` ends with `t`. */
  predicate IsSuffix(t: seq<Bin>, s: seq<Bin>)
  {
    |t| <= |s| && s[|s| - |t|..] == t
  }

  // ---------------------------------------------------------------------
  // Facts about these operations
  // ---------------------------------------------------------------------

  /** With unique identifiers the lookup of a bin's own id finds that bin. */
  lemma FindIndexUnique(s: seq<Bin>, i: int)
    requires UniqueIds(s) && 0 <= i < |s|
    ensures FindIndex(s, s[i].id) == Some(i)
  {
  }

  /** Two registry entries with the same id are the same entry. */
  lemma SameIdSameBin(s: seq<Bin>, x: Bin, y: Bin)
    requires UniqueIds(s) && x in s && y in s && x.id == y.id
    ensures x == y
  {
    var i :| 0 <= i < |s| && s[i] == x;
    var j :| 0 <= j < |s| && s[j] == y;
  }

  /** Unique identifiers imply that no entry occurs twice. */
  lemma {:induction false} UniqueIdsDistinct(s: seq<Bin>)
    requires UniqueIds(s)
    ensures Distinct(s)
  {
    if |s| > 0 {
      var t := s[..|s| - 1];
      var b := s[|s| - 1];
      assert s == t + [b];
      assert UniqueIds(t);
      UniqueIdsDistinct(t);
      assert b !in t;
      assert multiset(s) == multiset(t) + multiset{b};
      forall x | x in multiset(s)
        ensures multiset(s)[x] == 1
      {
        if x == b {
          assert multiset(t)[x] == 0;
        } else {
          assert x in multiset(t);
        }
      }
    }
  }

  /** Dropping entries keeps a list free of repeats. */
  lemma DistinctSub(s: seq<Bin>, t: seq<Bin>)
    requires Distinct(s) && multiset(t) <= multiset(s)
    ensures Distinct(t)
  {
    forall x | x in multiset(t)
      ensures multiset(t)[x] == 1
    {
      assert x in multiset(s);
    }
  }

  /** Adding an entry not yet present keeps a list free of repeats. */
  lemma DistinctAdd(s: seq<Bin>, b: Bin, t: seq<Bin>)
    requires Distinct(s) && b !in s && multiset(t) == multiset(s) + multiset{b}
    ensures Distinct(t)
  {
    forall x | x in multiset(t)
      ensures multiset(t)[x] == 1
    {
      if x != b {
        assert x in multiset(s);
      } else {
        assert multiset(s)[x] == 0;
      }
    }
  }

  /** What `RemoveById` takes away, as multisets. */
  lemma RemoveByIdMultiset(s: seq<Bin>, id: int)
    ensures FindIndex(s, id).Some? ==>
              multiset(RemoveById(s, id)) == multiset(s) - multiset{s[FindIndex(s, id).value]}
    ensures multiset(RemoveById(s, id)) <= multiset(s)
  {
    if FindIndex(s, id).Some? {
      RemoveAtMultiset(s, FindIndex(s, id).value);
    }
  }

  /** Dropping position `k` takes exactly that entry away. */
  lemma RemoveAtMultiset(s: seq<Bin>, k: nat)
    requires k < |s|
    ensures multiset(s[..k] + s[k + 1..]) == multiset(s) - multiset{s[k]}
  {
    assert s == s[..k] + [s[k]] + s[k + 1..];
  }

  /** A list with the entries of `s` and one more `b` holds `b` and otherwise entries of `s`. */
  lemma MembersAdd(s: seq<Bin>, b: Bin, t: seq<Bin>)
    requires multiset(t) == multiset(s) + multiset{b}
    ensures b in t && forall e | e in t :: e in s || e == b
  {
    assert b in multiset(t);
    forall e | e in t ensures e in s || e == b {
      assert e in multiset(t);
    }
  }

  /** Unlinking only takes entries away. */
  lemma RemovedFrom(s: seq<Bin>, id: int)
    ensures forall e | e in RemoveById(s, id) :: e in s
  {
    RemoveByIdMultiset(s, id);
    forall e | e in RemoveById(s, id) ensures e in s {
      assert e in multiset(RemoveById(s, id));
    }
  }

  /** Without a node carrying `id`, no entry carries it. */
  lemma NoIdNoEntry(s: seq<Bin>, id: int)
    requires !HasId(s, id)
    ensures forall e | e in s :: e.id != id
  {
    forall e | e in s ensures e.id != id {
      var i :| 0 <= i < |s| && s[i] == e;
    }
  }

  /**
   In a list of live registry entries without repeats, unlinking the first
   node with an id leaves no node with that id.
   */
  lemma RemoveByIdClears(s: seq<Bin>, reg: seq<Bin>, id: int)
    requires Distinct(s) && UniqueIds(reg)
    requires forall e | e in s :: e in reg
    ensures !HasId(RemoveById(s, id), id)
    ensures Distinct(RemoveById(s, id))
  {
    var r := RemoveById(s, id);
    RemoveByIdMultiset(s, id);
    DistinctSub(s, r);
    if HasId(r, id) {
      var i :| 0 <= i < |r| && r[i].id == id;
      var e := r[i];
      assert e in multiset(r);
      var k := FindIndex(s, id).value;
      SameIdSameBin(reg, e, s[k]);
      assert false;
    }
  }

  /** Unlinking from the front part of a list leaves a tail without the id intact. */
  lemma {:induction false} RemoveByIdAppend(x: seq<Bin>, t: seq<Bin>, id: int)
    requires !HasId(t, id)
    ensures RemoveById(x + t, id) == RemoveById(x, id) + t
  {
    if |x| == 0 {
      assert x + t == t;
      assert FindIndex(t, id).None?;
    } else {
      assert (x + t)[1..] == x[1..] + t;
      RemoveByIdAppend(x[1..], t, id);
    }
  }
}
