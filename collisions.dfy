/** The collision check an airplane runs once, right after its descent: a scan of
    the airplane list that records the first new pair of planes sharing the runway
    closer than one airplane width, and then stops. */
module Collisions {
  import opened Options
  import opened Motion

  /** Rendered width of an airplane: two planes on the runway whose x differ by
      less than this overlap. */
  const PlaneWidth: int := 190

  /** What the scan reads of another airplane at the moment it looks. */
  datatype PlaneView = PlaneView(id: int, x: int, y: int)

  /** A recorded collision, as the ids of (the plane that checked, the other plane). */
  type IdPair = (int, int)

  function Abs(n: int): nat
  {
    if n < 0 then -n else n
  }

  predicate SamePair(p: IdPair, a: int, b: int)
  {
    p == (a, b) || p == (b, a)
  }

  /** The unordered pair {a, b} already appears in the list, in either order. */
  predicate Recorded(pairs: seq<IdPair>, a: int, b: int)
    ensures Recorded(pairs, a, b) <==> (a, b) in pairs || (b, a) in pairs
  {
    exists k :: 0 <= k < |pairs| && SamePair(pairs[k], a, b)
  }

  /** The four conditions under which the airplane `selfId` at `selfX` records a
      collision with `v`: another id, `v` on the runway row (whether or not it has
      finished its run), closer than a plane width, and the pair not yet recorded. */
  predicate Conflicts(selfId: int, selfX: int, v: PlaneView, pairs: seq<IdPair>)
    ensures Conflicts(selfId, selfX, v, pairs) <==>
      v.id != selfId && v.y == RunwayY && selfX - PlaneWidth < v.x < selfX + PlaneWidth &&
      (selfId, v.id) !in pairs && (v.id, selfId) !in pairs
  {
    v.id != selfId && v.y == RunwayY && Abs(selfX - v.x) < PlaneWidth && !Recorded(pairs, selfId, v.id)
  }

  /** The collision list invariant: no pair of a plane with itself, and no unordered
      pair twice. */
  predicate PairsValid(pairs: seq<IdPair>)
  {
    (forall k :: 0 <= k < |pairs| ==> pairs[k].0 != pairs[k].1) &&
    (forall k, l :: 0 <= k < l < |pairs| ==> !SamePair(pairs[l], pairs[k].0, pairs[k].1))
  }

  /** Index at which the scan over `views` breaks, if any. */
  function FirstConflict(selfId: int, selfX: int, views: seq<PlaneView>, pairs: seq<IdPair>): (r: Option<nat>)
    ensures r.Some? ==> r.value < |views|
    decreases |views|
  {
    if |views| == 0 then None
    else if Conflicts(selfId, selfX, views[0], pairs) then Some(0)
    else match FirstConflict(selfId, selfX, views[1..], pairs)
      case None => None
      case Some(k) => Some(k + 1)
  }

  /** The scan breaks at the first plane that conflicts, and runs to the end
      exactly when none does. */
  lemma {:induction false} FirstConflictIsFirst(selfId: int, selfX: int, views: seq<PlaneView>, pairs: seq<IdPair>)
    ensures var r := FirstConflict(selfId, selfX, views, pairs);
      (r.Some? ==> Conflicts(selfId, selfX, views[r.value], pairs)) &&
      (r.Some? ==> forall j :: 0 <= j < r.value ==> !Conflicts(selfId, selfX, views[j], pairs)) &&
      (r.None? ==> forall j :: 0 <= j < |views| ==> !Conflicts(selfId, selfX, views[j], pairs))
    decreases |views|
  {
    if |views| > 0 && !Conflicts(selfId, selfX, views[0], pairs) {
      FirstConflictIsFirst(selfId, selfX, views[1..], pairs);
      assert forall j :: 1 <= j < |views| ==> views[j] == views[1..][j - 1];
    }
  }

  /** The collision list after one check: the first new conflicting pair appended,
      or the list unchanged. */
  function RecordFirstConflict(selfId: int, selfX: int, views: seq<PlaneView>, pairs: seq<IdPair>): (r: seq<IdPair>)
    ensures |pairs| <= |r| <= |pairs| + 1 && r[..|pairs|] == pairs
  {
    match FirstConflict(selfId, selfX, views, pairs)
    case None => pairs
    case Some(i) => pairs + [(selfId, views[i].id)]
  }

  /** A check leaves the list unchanged exactly when no plane qualifies; otherwise
      the one pair it appends is (the checking plane, a plane that qualifies). */
  lemma RecordFirstConflictMeaning(selfId: int, selfX: int, views: seq<PlaneView>, pairs: seq<IdPair>)
    ensures var r := RecordFirstConflict(selfId, selfX, views, pairs);
      (|r| == |pairs| <==> forall j :: 0 <= j < |views| ==> !Conflicts(selfId, selfX, views[j], pairs)) &&
      (|r| == |pairs| + 1 ==>
        r[|pairs|].0 == selfId &&
        exists j :: 0 <= j < |views| && views[j].id == r[|pairs|].1 && Conflicts(selfId, selfX, views[j], pairs))
  {
    FirstConflictIsFirst(selfId, selfX, views, pairs);
  }

  /** Appending a pair of two different planes that is not yet recorded keeps the
      list free of repeats, and afterwards the pair counts as recorded both ways. */
  lemma RecordingKeepsPairsValid(pairs: seq<IdPair>, a: int, b: int)
    requires PairsValid(pairs) && a != b && !Recorded(pairs, a, b)
    ensures PairsValid(pairs + [(a, b)])
    ensures Recorded(pairs + [(a, b)], a, b) && Recorded(pairs + [(a, b)], b, a)
  {
  }

  /** One collision check keeps the collision list invariant: the same unordered
      pair is never recorded twice, and no plane is paired with itself. */
  lemma CheckKeepsPairsValid(selfId: int, selfX: int, views: seq<PlaneView>, pairs: seq<IdPair>)
    requires PairsValid(pairs)
    ensures PairsValid(RecordFirstConflict(selfId, selfX, views, pairs))
  {
    FirstConflictIsFirst(selfId, selfX, views, pairs);
    match FirstConflict(selfId, selfX, views, pairs)
    case None =>
    case Some(i) =>
      RecordingKeepsPairsValid(pairs, selfId, views[i].id);
  }

  /** The check only ever looks at other planes' ids: entries carrying the checking
      plane's own id, wherever it stands, do not change the outcome. */
  lemma {:induction false} OwnEntriesIgnored(selfId: int, selfX: int, v1: seq<PlaneView>, v2: seq<PlaneView>, pairs: seq<IdPair>)
    requires |v1| == |v2|
    requires forall i :: 0 <= i < |v1| ==> v1[i] == v2[i] || (v1[i].id == selfId && v2[i].id == selfId)
    ensures FirstConflict(selfId, selfX, v1, pairs) == FirstConflict(selfId, selfX, v2, pairs)
    decreases |v1|
  {
    if |v1| > 0 {
      OwnEntriesIgnored(selfId, selfX, v1[1..], v2[1..], pairs);
    }
  }

  /** A snapshot in which plane 2 touches down at x = 415 while plane 1 is still on
      the runway, 99 pixels into its slide: the pair (2, 1) is recorded. */
  lemma OverlappingTouchdownIsRecorded()
    ensures RecordFirstConflict(2, TouchdownX,
      [PlaneView(1, 316, RunwayY), PlaneView(2, TouchdownX, RunwayY), PlaneView(3, 449, 402), PlaneView(4, 482, 336)],
      []) == [(2, 1)]
  {
  }

  /** A pair already on the list is skipped and the scan goes on to the next plane:
      plane 2 overlaps both 1 and 3, {1, 2} is recorded, so (2, 3) is appended. */
  lemma RecordedPairIsSkipped()
    ensures RecordFirstConflict(2, TouchdownX,
      [PlaneView(1, 400, RunwayY), PlaneView(3, 420, RunwayY)], [(1, 2)]) == [(1, 2), (2, 3)]
  {
    var views := [PlaneView(1, 400, RunwayY), PlaneView(3, 420, RunwayY)];
    assert SamePair([(1, 2)][0], 2, 1);
    assert !Conflicts(2, TouchdownX, views[0], [(1, 2)]);
    assert !Recorded([(1, 2)], 2, 3);
    assert FirstConflict(2, TouchdownX, views[1..], [(1, 2)]) == Some(0);
  }

  /** Landings one at a time, as the semaphore makes them: when a plane from the
      spawn point touches down, every other plane is either still in the air or has
      finished its slide at the exit, so the check records nothing. */
  lemma SerialTouchdownRecordsNothing(selfId: int, views: seq<PlaneView>, pairs: seq<IdPair>)
    requires forall i :: 0 <= i < |views| && views[i].id != selfId ==>
      views[i].y != RunwayY || views[i].x == Vacated(Descended(SpawnX, SpawnY).0)
    ensures RecordFirstConflict(selfId, Descended(SpawnX, SpawnY).0, views, pairs) == pairs
  {
    DescentFromSpawn();
    VacateFromRunway();
    FirstConflictIsFirst(selfId, TouchdownX, views, pairs);
  }
}
