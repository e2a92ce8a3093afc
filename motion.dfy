/** Screen constants and the two movement loops of an airplane's run:
    the diagonal descent onto the runway and the slide off to the left. */
module Motion {

  /** Width of the window; a new airplane appears 200 pixels from its right edge. */
  const Width: int := 900
  const SpawnX: int := Width - 200
  /** A new airplane starts above the visible area. */
  const SpawnY: int := -100

  /** Altitude (screen row) of the runway; the descent stops once it is reached. */
  const RunwayY: int := 470
  /** Per tick, the descent moves 2 down and 1 left. */
  const DescentDrop: int := 2
  const DescentDrift: int := 1

  /** The vacating slide moves 3 left per tick while x is right of this line. */
  const VacateLimit: int := -150
  const VacateStep: int := 3

  /** Where a plane that started at the spawn point touches down and leaves. */
  const TouchdownX: int := 415
  const ExitX: int := -152

  /** Position reached by the descent loop `while y < 470: y += 2; x -= 1`.
      It stops as soon as the guard fails, so it ends on or below the runway row. */
  function Descended(x: int, y: int): (r: (int, int))
    ensures r.1 >= RunwayY
    decreases RunwayY - y
  {
    if y < RunwayY then Descended(x - DescentDrift, y + DescentDrop) else (x, y)
  }

  /** Number of ticks the descent loop takes from altitude y. */
  function DescentTicks(y: int): nat
  {
    if y < RunwayY then (RunwayY - y + 1) / 2 else 0
  }

  /** The descent is a straight line: after n ticks the plane has moved n left and
      2n down, with n = DescentTicks(y). In particular `2*(x0 - x) == y - y0` holds
      at exit, the invariant the loop keeps. */
  lemma {:induction false} DescentClosedForm(x: int, y: int)
    ensures Descended(x, y) == (x - DescentTicks(y), y + 2 * DescentTicks(y))
    decreases RunwayY - y
  {
    if y < RunwayY {
      DescentClosedForm(x - DescentDrift, y + DescentDrop);
    }
  }

  /** From an altitude an even distance above the runway, the descent ends exactly
      on the runway row, never below it. */
  lemma DescentLandsOnRunway(x: int, y: int)
    requires y <= RunwayY && (RunwayY - y) % 2 == 0
    ensures Descended(x, y) == (x - (RunwayY - y) / 2, RunwayY)
  {
    DescentClosedForm(x, y);
  }

  /** A plane leaving the spawn point descends for 285 ticks and touches down at
      (415, 470). */
  lemma DescentFromSpawn()
    ensures DescentTicks(SpawnY) == 285
    ensures Descended(SpawnX, SpawnY) == (TouchdownX, RunwayY)
  {
    DescentLandsOnRunway(SpawnX, SpawnY);
  }

  /** Horizontal position reached by the vacating loop `while x > -150: x -= 3`. */
  function Vacated(x: int): (r: int)
    ensures r <= VacateLimit
    decreases x - VacateLimit
  {
    if x > VacateLimit then Vacated(x - VacateStep) else x
  }

  /** Number of ticks the vacating loop takes from x: the least n with x - 3n <= -150. */
  function VacateTicks(x: int): nat
  {
    if x > VacateLimit then (x - VacateLimit + 2) / 3 else 0
  }

  /** The slide moves exactly 3 per tick for VacateTicks(x) ticks. */
  lemma {:induction false} VacateClosedForm(x: int)
    ensures Vacated(x) == x - VacateStep * VacateTicks(x)
    decreases x - VacateLimit
  {
    if x > VacateLimit {
      VacateClosedForm(x - VacateStep);
    }
  }

  /** A plane right of the exit line stops at most one step past it:
      -153 < x <= -150; one already past it does not move. */
  lemma VacateStopsWithinOneStep(x: int)
    ensures x > VacateLimit ==> VacateLimit - VacateStep < Vacated(x) <= VacateLimit
    ensures x <= VacateLimit ==> Vacated(x) == x
  {
    VacateClosedForm(x);
  }

  /** A plane that touched down at x = 415 slides for 189 ticks and stops at -152. */
  lemma VacateFromRunway()
    ensures VacateTicks(TouchdownX) == 189
    ensures Vacated(TouchdownX) == ExitX
  {
    VacateClosedForm(TouchdownX);
  }
}
