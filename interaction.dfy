/** The pointer-interaction state machine of the star scene, as pure functions on a
    snapshot of the module-level interaction variables together with the star's
    transform and colour. Inputs that come from the browser or the rendering library
    (the clock, the mesh ray hit, the ray-plane point, the random draw) are parameters. */
module Interaction {
  import opened Wrappers
  import opened Vectors

  /** A press released in strictly less than this many milliseconds may be a click. */
  const ClickThreshold: real := 150.0
  /** Idle-spin increment of `rotation.x` and `rotation.y` per animation frame. */
  const SpinStep: real := 0.01
  /** The random colour is `Math.random()` scaled by this, floored by `setHex`. */
  const ColorScale: int := 0xffffff
  /** The material colour the star is created with. */
  const InitialColor: int := 0xffff00

  /** The interaction variables and the parts of the star the handlers touch.
      `hasTarget` stands for `intersectedObject !== null`; the only object ever
      intersected is the star itself. `color` is the material colour as a hex value. */
  datatype State = State(
    isDragging: bool,
    isClick: bool,
    hasTarget: bool,
    clickStartTime: real,
    dragOffset: Vec3,
    position: Vec3,
    rotation: Vec3,
    color: int)

  /** The state when the page has loaded. */
  const Initial: State := State(false, false, false, 0.0, Zero, Zero, Zero, InitialColor)

  /** A drag is in progress exactly when a target is held. */
  predicate Consistent(s: State) {
    s.isDragging == s.hasTarget
  }

  /** No drag session is open. */
  predicate Idle(s: State) {
    !s.isDragging && !s.isClick && !s.hasTarget
  }

  /** The point of the star under the cursor when it was grabbed (or last moved). */
  function Grabbed(s: State): Vec3 {
    Add(s.position, s.dragOffset)
  }

  /** The colour `setHex(Math.random() * 0xffffff)` produces from the draw `rand`. */
  function RandomHex(rand: real): (c: int)
    requires 0.0 <= rand < 1.0
    ensures 0 <= c < ColorScale
    ensures c as real <= rand * ColorScale as real < c as real + 1.0
  {
    (rand * ColorScale as real).Floor
  }

  /** Every hex value below 0xffffff is the colour of some draw; 0xffffff itself never is. */
  lemma EveryColorDrawable(c: int)
    requires 0 <= c < ColorScale
    ensures 0.0 <= c as real / ColorScale as real < 1.0
    ensures RandomHex(c as real / ColorScale as real) == c
  {
    var rand := c as real / ColorScale as real;
    assert rand * ColorScale as real == c as real;
  }

  /** A release at `now` is treated as a click. */
  predicate IsClickRelease(s: State, now: real) {
    s.isClick && now - s.clickStartTime < ClickThreshold && s.hasTarget
  }

  /** `onMouseDown`: every press arms a click at `now`; a press whose ray hits the
      star (`hit` is the nearest hit point) also grabs it. */
  function MouseDown(s: State, now: real, hit: Option<Vec3>): (r: State)
    ensures r.isClick && r.clickStartTime == now
    ensures hit.Some? ==> r.isDragging && r.hasTarget && Grabbed(r) == hit.value
    ensures hit.None? ==> r.isDragging == s.isDragging && r.hasTarget == s.hasTarget
                          && r.dragOffset == s.dragOffset
    ensures r.position == s.position && r.rotation == s.rotation && r.color == s.color
    ensures Consistent(s) ==> Consistent(r)
  {
    var armed := s.(isClick := true, clickStartTime := now);
    match hit
    case None => armed
    case Some(point) =>
      armed.(hasTarget := true, isDragging := true, dragOffset := Sub(point, s.position))
  }

  /** The point `ray.intersectPlane` leaves in the fresh target vector: the intersection
      when there is one, otherwise the vector stays at the origin. */
  function PlanePoint(planeHit: Option<Vec3>): Vec3 {
    match planeHit
    case None => Zero
    case Some(p) => p
  }

  /** `onMouseMove`: while dragging a target, the move cancels the click and moves the
      star so that the grabbed point sits on the cursor's point of the drag plane. */
  function MouseMove(s: State, planeHit: Option<Vec3>): (r: State)
    ensures s.isDragging && s.hasTarget ==>
              !r.isClick && Grabbed(r) == PlanePoint(planeHit)
              && r == s.(isClick := false, position := r.position)
    ensures !(s.isDragging && s.hasTarget) ==> r == s
  {
    if s.isDragging && s.hasTarget then
      s.(isClick := false, position := Sub(PlanePoint(planeHit), s.dragOffset))
    else
      s
  }

  /** `onMouseUp`: a release recolours the target exactly when it is a click, and
      always closes the session. */
  function MouseUp(s: State, now: real, rand: real): (r: State)
    requires 0.0 <= rand < 1.0
    ensures Idle(r)
    ensures IsClickRelease(s, now) ==> r.color == RandomHex(rand)
    ensures r.color != s.color ==> IsClickRelease(s, now)
    ensures r.position == s.position && r.rotation == s.rotation
            && r.dragOffset == s.dragOffset && r.clickStartTime == s.clickStartTime
  {
    var clickDuration := now - s.clickStartTime;
    var released := s.(isDragging := false);
    var colored :=
      if released.isClick && clickDuration < ClickThreshold && released.hasTarget
      then released.(color := RandomHex(rand))
      else released;
    colored.(isClick := false, hasTarget := false)
  }

  /** The rotation after `n` idle-spin frames. */
  function Spun(rotation: Vec3, n: nat): Vec3 {
    Vec3(rotation.x + n as real * SpinStep, rotation.y + n as real * SpinStep, rotation.z)
  }

  /** The rotation guard of `animate`: spin one step unless dragging. */
  function Animate(s: State): (r: State)
    ensures !s.isDragging ==>
              r.rotation.x - s.rotation.x == SpinStep && r.rotation.y - s.rotation.y == SpinStep
              && r.rotation.z == s.rotation.z && r == s.(rotation := r.rotation)
    ensures s.isDragging ==> r == s
  {
    if !s.isDragging then s.(rotation := Spun(s.rotation, 1)) else s
  }
}
