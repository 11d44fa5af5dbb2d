/**
 The area-distance table of src/main.c (`getAreaDistance`,
 `setAreaDistance`, `freeAreaDistances`): a linked list of area names with
 a distance each, searched from the head, new entries pushed at the head.
 */
module AreaDistances {
  import opened Wrappers

  /** One node of the table. */
  datatype AreaDistance = AreaDistance(area: string, distance: real)

  /** The value `getAreaDistance` returns for an area that is not in the table. */
  const ABSENT: real := -1.0

  /** Some node names `area`. */
  predicate HasArea(t: seq<AreaDistance>, area: string)
  {
    exists i :: 0 <= i < |t| && t[i].area == area
  }

  /** No two nodes name the same area. */
  predicate UniqueAreas(t: seq<AreaDistance>)
  {
    forall i, j :: 0 <= i < |t| && 0 <= j < |t| && t[i].area == t[j].area ==> i == j
  }

  /** Position of the first node naming `area`, scanning from the head. */
  function FindArea(t: seq<AreaDistance>, area: string): (r: Option<nat>)
    ensures r.Some? ==> r.value < |t| && t[r.value].area == area
    ensures r.Some? ==> forall j :: 0 <= j < r.value ==> t[j].area != area
    ensures r.None? <==> !HasArea(t, area)
  {
    if |t| == 0 then None
    else if t[0].area == area then Some(0)
    else
      match FindArea(t[1..], area)
      case None => None
      case Some(k) => Some(k + 1)
  }

  /** `getAreaDistance`: the first node's distance for `area`, or -1. */
  function GetAreaDistance(t: seq<AreaDistance>, area: string): (d: real)
    ensures !HasArea(t, area) ==> d == ABSENT
    ensures forall i | 0 <= i < |t| && t[i].area == area && (forall j | 0 <= j < i :: t[j].area != area) ::
              d == t[i].distance
  {
    match FindArea(t, area)
    case None => ABSENT
    case Some(i) => t[i].distance
  }

  /** `setAreaDistance`: overwrite the first node for `area`, or push a new node at the head. */
  function SetAreaDistance(t: seq<AreaDistance>, area: string, distance: real): (r: seq<AreaDistance>)
    ensures HasArea(t, area) ==>
              && |r| == |t|
              && (forall i | 0 <= i < |t| :: r[i].area == t[i].area)
    ensures !HasArea(t, area) ==> r == [AreaDistance(area, distance)] + t
  {
    match FindArea(t, area)
    case None => [AreaDistance(area, distance)] + t
    case Some(i) => t[i := t[i].(distance := distance)]
  }

  /** `freeAreaDistances`: the table is emptied. */
  function FreeAreaDistances(t: seq<AreaDistance>): (r: seq<AreaDistance>)
    ensures forall area :: !HasArea(r, area)
  {
    []
  }

  /** Reading an area right after setting it gives the distance just set. */
  lemma GetAfterSet(t: seq<AreaDistance>, area: string, distance: real)
    ensures GetAreaDistance(SetAreaDistance(t, area, distance), area) == distance
  {
    var r := SetAreaDistance(t, area, distance);
    match FindArea(t, area)
    case None =>
      assert r[0].area == area;
    case Some(i) =>
      assert r[i].area == area;
      assert forall j | 0 <= j < i :: r[j] == t[j];
  }

  /** Setting one area leaves every other area's reading unchanged. */
  lemma SetLeavesOthers(t: seq<AreaDistance>, area: string, distance: real, other: string)
    requires other != area
    ensures GetAreaDistance(SetAreaDistance(t, area, distance), other) == GetAreaDistance(t, other)
  {
    var r := SetAreaDistance(t, area, distance);
    match FindArea(t, other)
    case None =>
      assert !HasArea(r, other) by {
        forall i | 0 <= i < |r| ensures r[i].area != other {
          if !HasArea(t, area) && i > 0 {
            assert r[i] == t[i - 1];
          }
        }
      }
    case Some(k) =>
      if HasArea(t, area) {
        var i := FindArea(t, area).value;
        assert r[k] == t[k];
        assert forall j | 0 <= j < k :: r[j].area == t[j].area;
      } else {
        assert r[k + 1] == t[k];
        assert forall j | 1 <= j < k + 1 :: r[j] == t[j - 1];
      }
  }

  /** Setting keeps area names unique. */
  lemma SetKeepsUnique(t: seq<AreaDistance>, area: string, distance: real)
    requires UniqueAreas(t)
    ensures UniqueAreas(SetAreaDistance(t, area, distance))
  {
    var r := SetAreaDistance(t, area, distance);
    if !HasArea(t, area) {
      assert forall k | 1 <= k < |r| :: r[k] == t[k - 1] && r[k].area != area;
    }
  }

  /**
   With non-negative distances, as the table is filled, -1 is read exactly
   for the areas that are not in it.
   */
  lemma AbsentIffMinusOne(t: seq<AreaDistance>, area: string)
    requires forall i | 0 <= i < |t| :: t[i].distance >= 0.0
    ensures GetAreaDistance(t, area) == ABSENT <==> !HasArea(t, area)
  {
    if HasArea(t, area) {
      var i := FindArea(t, area).value;
      assert GetAreaDistance(t, area) == t[i].distance;
    }
  }
}
