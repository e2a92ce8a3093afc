/** The airplanes and the state they share: each airplane's lifecycle, run as
    one sequential method per phase, and the reset that starts a new run with a
    fleet of four. The threads, the semaphore's blocking and the sleeps between
    ticks are not modelled; the semaphore policy is kept as a flag on each plane. */
module Simulation {
  import opened Options
  import opened Motion
  import opened Messages
  import opened Collisions

  /** Number of airplanes a run creates. */
  const FleetSize: int := 4

  /** The ids of the recorded collisions (a collision holds the two airplane objects). */
  function PairIds(c: seq<(Airplane, Airplane)>): (r: seq<IdPair>)
    ensures |r| == |c| && forall k :: 0 <= k < |c| ==> r[k] == (c[k].0.id, c[k].1.id)
  {
    seq(|c|, k requires 0 <= k < |c| => (c[k].0.id, c[k].1.id))
  }

  /** What a scan of the airplane list sees of each plane. */
  function Views(ps: seq<Airplane>): (r: seq<PlaneView>)
    reads ps
    ensures |r| == |ps| && forall i :: 0 <= i < |ps| ==> r[i] == PlaneView(ps[i].id, ps[i].x, ps[i].y)
  {
    seq(|ps|, i requires 0 <= i < |ps| reads ps => PlaneView(ps[i].id, ps[i].x, ps[i].y))
  }

  /** The board right after a reset that created planes 1..n: each one's slot says
      it wants to land. */
  function InitialBoard(n: nat): (r: map<Slot, string>)
    ensures CollisionSlot !in r
  {
    if n == 0 then map[] else InitialBoard(n - 1)[PlaneSlot(n) := WantsToLand(n)]
  }

  /** The board after a reset has exactly the slots of planes 1..n, no banner, and
      each slot names its own plane as wanting to land. */
  lemma {:induction false} InitialBoardContents(n: nat)
    ensures forall s :: s in InitialBoard(n) <==> s.PlaneSlot? && 1 <= s.id <= n
    ensures forall i :: 1 <= i <= n ==> InitialBoard(n)[PlaneSlot(i)] == WantsToLand(i)
  {
    if n > 0 {
      InitialBoardContents(n - 1);
    }
  }

  class Airplane {
    const id: int
    /** Seconds the plane waits before asking for the runway. */
    const startDelay: int
    /** Whether the plane was handed the shared semaphore (acquired before landing,
        released after vacating). */
    const usesSemaphore: bool
    /** The text set at creation; the plane's later texts go to the board only. */
    const message: string
    var x: int
    var y: int
    var landing: bool
    var landed: bool
    var running: bool

    /** The state a new airplane is created in. */
    ghost predicate AtSpawn()
      reads this
    {
      x == SpawnX && y == SpawnY && !landing && !landed && running
    }

    constructor (id: int, startDelay: int, usesSemaphore: bool)
      ensures this.id == id && this.startDelay == startDelay && this.usesSemaphore == usesSemaphore
      ensures AtSpawn() && message == WantsToLand(id)
    {
      this.id := id;
      this.startDelay := startDelay;
      this.usesSemaphore := usesSemaphore;
      message := WantsToLand(id);
      x := SpawnX;
      y := SpawnY;
      landing := false;
      landed := false;
      running := true;
    }

    /** Start of the landing: the flag is raised and the plane's own slot announces it. */
    method BeginLanding(w: World)
      modifies this`landing, w`messages
      ensures landing
      ensures w.messages == old(w.messages)[PlaneSlot(id) := IsLanding(id)]
    {
      landing := true;
      w.messages := w.messages[PlaneSlot(id) := IsLanding(id)];
    }

    /** The descent loop: 2 down and 1 left per tick until the runway row is reached. */
    method Descend()
      modifies this`x, this`y
      ensures (x, y) == Descended(old(x), old(y))
      ensures y >= RunwayY
    {
      while y < RunwayY
        invariant Descended(x, y) == Descended(old(x), old(y))
        decreases RunwayY - y
      {
        y := y + DescentDrop;
        x := x - DescentDrift;
      }
    }

    /** The collision scan: the first plane that conflicts with this one, if any,
        is recorded as the pair (this, plane) and raises the collision banner;
        the scan then stops. With no conflicting plane, nothing changes. */
    method CheckCollision(w: World)
      requires w.Valid()
      modifies w`messages, w`collisions
      ensures w.Valid()
      ensures PairIds(w.collisions) == RecordFirstConflict(id, x, Views(w.airplanes), PairIds(old(w.collisions)))
      ensures var hit := FirstConflict(id, x, Views(w.airplanes), PairIds(old(w.collisions)));
        (hit.Some? ==> w.collisions == old(w.collisions) + [(this, w.airplanes[hit.value])]) &&
        (hit.None? ==> w.collisions == old(w.collisions)) &&
        w.messages == if hit.Some? then old(w.messages)[CollisionSlot := CollisionBanner] else old(w.messages)
    {
      ghost var views := Views(w.airplanes);
      ghost var pairs := PairIds(w.collisions);
      FirstConflictIsFirst(id, x, views, pairs);
      var i := 0;
      while i < |w.airplanes|
        invariant 0 <= i <= |w.airplanes|
        invariant w.collisions == old(w.collisions) && w.messages == old(w.messages)
        invariant forall j :: 0 <= j < i ==> !Conflicts(id, x, views[j], pairs)
      {
        var plane := w.airplanes[i];
        if plane.id != id && plane.y == RunwayY {
          if Abs(x - plane.x) < PlaneWidth {
            if !Recorded(PairIds(w.collisions), id, plane.id) {
              w.messages := w.messages[CollisionSlot := CollisionBanner];
              w.collisions := w.collisions + [(this, plane)];
              assert Conflicts(id, x, views[i], pairs);
              assert FirstConflict(id, x, views, pairs) == Some(i);
              assert PairIds(w.collisions) == pairs + [(id, plane.id)];
              CheckKeepsPairsValid(id, x, views, pairs);
              break;
            }
          }
        }
        i := i + 1;
      }
    }

    /** End of the descent: the flag is raised and the slot says the plane has landed. */
    method Touchdown(w: World)
      modifies this`landed, w`messages
      ensures landed
      ensures w.messages == old(w.messages)[PlaneSlot(id) := HasLanded(id)]
    {
      landed := true;
      w.messages := w.messages[PlaneSlot(id) := HasLanded(id)];
    }

    /** The vacating loop: 3 left per tick until past the exit line; y is untouched. */
    method Vacate()
      modifies this`x
      ensures x == Vacated(old(x))
      ensures x <= VacateLimit && y == old(y)
    {
      while x > VacateLimit
        invariant Vacated(x) == Vacated(old(x))
        decreases x - VacateLimit
      {
        x := x - VacateStep;
      }
    }

    /** End of the run: the plane stops being drawn and its slot is emptied. */
    method Finish(w: World)
      modifies this`running, w`messages
      ensures !running
      ensures w.messages == old(w.messages)[PlaneSlot(id) := Cleared]
    {
      running := false;
      w.messages := w.messages[PlaneSlot(id) := Cleared];
    }

    /** From the start of the landing to touchdown: announce, descend, run the
        collision check against the planes as they stand once this one is down,
        then announce the landing. */
    method LandAndCheck(w: World)
      requires w.Valid() && !landing
      modifies this`x, this`y, this`landing, this`landed, w`messages, w`collisions
      ensures w.Valid()
      ensures landing && landed
      ensures (x, y) == Descended(old(x), old(y))
      ensures var hit := FirstConflict(id, x, Views(w.airplanes), old(PairIds(w.collisions)));
        PairIds(w.collisions) == RecordFirstConflict(id, x, Views(w.airplanes), old(PairIds(w.collisions))) &&
        (hit.Some? ==> w.collisions == old(w.collisions) + [(this, w.airplanes[hit.value])]) &&
        (hit.None? ==> w.collisions == old(w.collisions)) &&
        w.messages == (if hit.Some? then old(w.messages)[CollisionSlot := CollisionBanner] else old(w.messages))[PlaneSlot(id) := HasLanded(id)]
    {
      ghost var board := w.messages;
      BeginLanding(w);
      Descend();
      CheckCollision(w);
      ghost var scan := Views(w.airplanes);
      ghost var hit := FirstConflict(id, x, scan, PairIds(old(w.collisions)));
      ghost var base := if hit.Some? then board[CollisionSlot := CollisionBanner] else board;
      assert w.messages == base[PlaneSlot(id) := IsLanding(id)];
      Touchdown(w);
      assert Views(w.airplanes) == scan;
      assert base[PlaneSlot(id) := IsLanding(id)][PlaneSlot(id) := HasLanded(id)] == base[PlaneSlot(id) := HasLanded(id)];
    }

    /** After touchdown: slide off the runway, then stop and empty the slot. */
    method LeaveRunway(w: World)
      modifies this`x, this`running, w`messages
      ensures !running && x == Vacated(old(x))
      ensures w.messages == old(w.messages)[PlaneSlot(id) := Cleared]
    {
      Vacate();
      Finish(w);
    }

    /** The whole lifecycle in order (waiting and the semaphore left out). The
        board ends with this plane's slot empty and, if a pair was recorded, the
        banner; no other slot is touched. */
    method Run(w: World)
      requires w.Valid() && !landing
      modifies this`x, this`y, this`landing, this`landed, this`running, w`messages, w`collisions
      ensures w.Valid()
      ensures landing && landed && !running
      ensures y == Descended(old(x), old(y)).1 && x == Vacated(Descended(old(x), old(y)).0)
      ensures old(AtSpawn()) ==> x == ExitX && y == RunwayY
      ensures var hit := FirstConflict(id, Descended(old(x), old(y)).0, old(Views(w.airplanes)), old(PairIds(w.collisions)));
        PairIds(w.collisions) == RecordFirstConflict(id, Descended(old(x), old(y)).0, old(Views(w.airplanes)), old(PairIds(w.collisions))) &&
        (hit.Some? ==> w.collisions == old(w.collisions) + [(this, w.airplanes[hit.value])]) &&
        (hit.None? ==> w.collisions == old(w.collisions)) &&
        w.messages == (if hit.Some? then old(w.messages)[CollisionSlot := CollisionBanner] else old(w.messages))[PlaneSlot(id) := Cleared]
    {
      ghost var before := Views(w.airplanes);
      ghost var pairs := PairIds(w.collisions);
      ghost var hit := FirstConflict(id, Descended(x, y).0, before, pairs);
      ghost var base := if hit.Some? then w.messages[CollisionSlot := CollisionBanner] else w.messages;
      LandAndCheck(w);
      ghost var scan := Views(w.airplanes);
      assert FirstConflict(id, x, scan, pairs) == hit by {
        assert forall i :: 0 <= i < |scan| ==> scan[i] == before[i] || (scan[i].id == id && before[i].id == id);
        OwnEntriesIgnored(id, x, scan, before, pairs);
      }
      LeaveRunway(w);
      assert base[PlaneSlot(id) := HasLanded(id)][PlaneSlot(id) := Cleared] == base[PlaneSlot(id) := Cleared];
      assert old(AtSpawn()) ==> x == ExitX && y == RunwayY by {
        DescentFromSpawn();
        VacateFromRunway();
      }
    }
  }

  /** The module-level state the airplanes and the window share. */
  class World {
    /** None before the first run, then "semaphore" or "no_semaphore". */
    var mode: Option<string>
    var airplanes: seq<Airplane>
    var messages: map<Slot, string>
    var collisions: seq<(Airplane, Airplane)>

    ghost predicate Valid()
      reads this
    {
      PairsValid(PairIds(collisions))
    }

    /** The state at program start: no mode, no planes, empty board, no collisions. */
    constructor ()
      ensures mode == None && airplanes == [] && messages == map[] && collisions == []
      ensures Valid()
    {
      mode := None;
      airplanes := [];
      messages := map[];
      collisions := [];
    }

    /** Reset for a new run: record the policy, empty the three containers, then
        create planes 1..4 with start delays 0..3, each announcing that it wants to
        land; only under the semaphore policy does a plane get the semaphore. */
    method StartSimulation(withSemaphore: bool)
      modifies this
      ensures mode == Some(if withSemaphore then "semaphore" else "no_semaphore")
      ensures collisions == [] && Valid()
      ensures |airplanes| == FleetSize
      ensures forall i :: 0 <= i < FleetSize ==>
        fresh(airplanes[i]) && airplanes[i].id == i + 1 && airplanes[i].startDelay == i &&
        airplanes[i].usesSemaphore == withSemaphore && airplanes[i].message == WantsToLand(i + 1) &&
        airplanes[i].AtSpawn()
      ensures messages == InitialBoard(FleetSize)
    {
      mode := Some(if withSemaphore then "semaphore" else "no_semaphore");
      airplanes := [];
      messages := map[];
      collisions := [];
      var i := 0;
      while i < FleetSize
        invariant 0 <= i <= FleetSize
        invariant mode == Some(if withSemaphore then "semaphore" else "no_semaphore")
        invariant collisions == [] && |airplanes| == i
        invariant forall k :: 0 <= k < i ==>
          fresh(airplanes[k]) && airplanes[k].id == k + 1 && airplanes[k].startDelay == k &&
          airplanes[k].usesSemaphore == withSemaphore && airplanes[k].message == WantsToLand(k + 1) &&
          airplanes[k].AtSpawn()
        invariant messages == InitialBoard(i)
      {
        var plane := new Airplane(i + 1, i, withSemaphore);
        airplanes := airplanes + [plane];
        messages := messages[PlaneSlot(i + 1) := plane.message];
        i := i + 1;
      }
    }

    /** The fleet of a run under the semaphore policy after the first n planes
        of the list have landed one at a time: those n are parked at the exit
        with their slots emptied, the rest still wait at the spawn point, and no
        collision has been recorded. */
    ghost predicate LandedInOrder(n: nat)
      reads this, airplanes
    {
      n <= FleetSize && |airplanes| == FleetSize && collisions == [] &&
      (forall k :: 0 <= k < FleetSize ==> airplanes[k].id == k + 1 && airplanes[k].usesSemaphore) &&
      (forall k :: 0 <= k < n ==>
        airplanes[k].landing && airplanes[k].landed && !airplanes[k].running &&
        airplanes[k].x == ExitX && airplanes[k].y == RunwayY) &&
      (forall k :: n <= k < FleetSize ==> airplanes[k].AtSpawn()) &&
      (forall s :: s in messages <==> s.PlaneSlot? && 1 <= s.id <= FleetSize) &&
      (forall k :: 1 <= k <= n ==> messages[PlaneSlot(k)] == Cleared)
    }

    /** The next plane in the list runs its whole lifecycle while the others
        are waiting or parked: it records nothing and ends parked at the exit. */
    method LandNext(i: nat)
      requires i < FleetSize && LandedInOrder(i)
      modifies this`messages, this`collisions, airplanes[i]
      ensures LandedInOrder(i + 1)
      ensures messages == old(messages)[PlaneSlot(i + 1) := Cleared]
    {
      var plane := airplanes[i];
      DescentFromSpawn();
      VacateFromRunway();
      SerialTouchdownRecordsNothing(plane.id, Views(airplanes), PairIds(collisions));
      plane.Run(this);
    }

    /** A run under the semaphore policy with the landings one at a time, in the
        order of the plane list: each plane goes from taking the semaphore to
        releasing it while no other plane is between those points. No collision
        is recorded, and every plane ends parked at the exit with its slot
        emptied. */
    method RunWithSemaphore()
      modifies this
      ensures mode == Some("semaphore")
      ensures collisions == [] && Valid()
      ensures |airplanes| == FleetSize
      ensures forall i :: 0 <= i < FleetSize ==>
        fresh(airplanes[i]) && airplanes[i].id == i + 1 && airplanes[i].startDelay == i &&
        airplanes[i].usesSemaphore && airplanes[i].message == WantsToLand(i + 1) &&
        airplanes[i].landing && airplanes[i].landed && !airplanes[i].running &&
        airplanes[i].x == ExitX && airplanes[i].y == RunwayY
      ensures forall s :: s in messages <==> s.PlaneSlot? && 1 <= s.id <= FleetSize
      ensures forall i :: 1 <= i <= FleetSize ==> messages[PlaneSlot(i)] == Cleared
    {
      StartSimulation(true);
      InitialBoardContents(FleetSize);
      for i := 0 to FleetSize
        invariant mode == Some("semaphore") && LandedInOrder(i)
        invariant forall k :: 0 <= k < |airplanes| ==>
          fresh(airplanes[k]) && airplanes[k].startDelay == k && airplanes[k].message == WantsToLand(k + 1)
      {
        LandNext(i);
      }
    }
  }
}
