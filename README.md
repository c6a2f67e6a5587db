# Star scene pointer interaction, modelled in Dafny

The scene renders one extruded star that spins on its own and that the user can click
or drag with the mouse. This project models the part of `Toyosaki_ITE18/src/script.js`
with logic of its own: the pointer state machine that tells a click from a drag, and the
idle-spin guard of the animation loop.

- `wrappers.dfy` — `Option`, for a ray that may miss.
- `vectors.dfy` — `Vec3` with `Add` and `Sub` (the library's `Vector3` arithmetic).
- `interaction.dfy` — module `Interaction`: the interaction variables (`isDragging`,
  `isClick`, `intersectedObject`, `clickStartTime`, `dragOffset`, the constant
  `CLICK_THRESHOLD` = 150) together with the star's position, rotation and colour, as a
  `State` value, and the handlers `MouseDown`, `MouseMove`, `MouseUp` and `Animate` as
  functions on it.
- `sessions.dfy` — module `Sessions`: sequences of pointer events and animation frames,
  and what whole press–release sessions do.
- `scene.dfy` — module `Scene`: the script's mutable objects as classes. `Mesh` is the
  star, updated in place. `Controller` holds the module-level variables and has the three
  handlers and the frame as methods. Each method is proved to change the state exactly as
  the matching `Interaction` function says.

Inputs from the browser and the rendering library are parameters:
- the clock reading (`performance.now()`), as `now`;
- the nearest point where the pointer ray hits the star, as `hit: Option<Vec3>`;
- the point where the ray meets the drag plane z = 0, as `planeHit: Option<Vec3>`;
- the `Math.random()` draw, as `rand` in [0, 1).

When the ray misses the plane, `ray.intersectPlane` leaves its target vector untouched.
That vector was just created, so the star is placed at the origin minus the offset. The
model keeps this (`PlanePoint`). The colour is the hex value that `setHex` keeps: the
draw times 0xffffff, floored.

## Behaviour worth noting

- A press that misses the star still sets `isClick` and `clickStartTime`
  (script.js:63-64).
- From an idle state, a missed press has no visible effect: whatever moves, frames and
  release follow, the star's position and colour stay the same (`Sessions.MissedPress`).
- A second press during an open drag, such as another mouse button, normally hits the
  held star, because the grabbed point stays under the cursor. That press re-grabs the
  star, recomputes the offset and re-arms the click (script.js:63-64, 73-79). A press
  that misses while a drag is open happens only when the cursor is off the held star.
  It still re-arms the click, and a release within 150 ms recolours the star still held
  (`Sessions.MissWhileHeldStillClicks`).
- `isDragging` is set by the press itself (script.js:75), not by the first move. So the
  idle spin stops as soon as the star is grabbed (`Interaction.Animate`,
  `Sessions.DragSession`).

## Model

| member | source | states |
|---|---|---|
| `Vectors.Sub` | Toyosaki_ITE18/src/script.js:79 | the difference is the unique vector that, added back to the subtrahend, gives the minuend |
| `Interaction.RandomHex` | Toyosaki_ITE18/src/script.js:89 | the colour drawn for a click is the floor of the draw times 0xffffff, so it lies in [0, 0xffffff) |
| `Interaction.EveryColorDrawable` | Toyosaki_ITE18/src/script.js:89 | every hex value below 0xffffff is the colour of some draw in [0, 1), namely the value divided by 0xffffff |
| `Interaction.MouseDown` | Toyosaki_ITE18/src/script.js:62-81 | every press arms a click at `now`. A hit grabs the star and sets `isDragging`, and the grabbed point (position + offset) is the hit point. A miss leaves `isDragging`, the target and the offset alone. The star is untouched, and a consistent state stays consistent |
| `Interaction.MouseMove` | Toyosaki_ITE18/src/script.js:96-110 | while dragging a target, a move clears `isClick` and puts the grabbed point on the cursor's plane point, changing nothing else. Otherwise it changes nothing |
| `Interaction.MouseUp` | Toyosaki_ITE18/src/script.js:83-94 | every release leaves no drag, no click and no target. A click release (click still armed, under 150 ms strictly, target held) sets the colour to the draw. The colour changes only on a click release. The transform, offset and start time are kept |
| `Interaction.Animate` | Toyosaki_ITE18/src/script.js:52-55 | when not dragging, a frame raises rotation x and y by the spin step and changes nothing else. While dragging, nothing changes |
| `Sessions.RunConsistent` | Toyosaki_ITE18/src/script.js:62-110 | any sequence of presses, moves, releases and frames keeps "dragging exactly when a target is held" |
| `Sessions.ReachableConsistent` | Toyosaki_ITE18/src/script.js:41-46 | every state reachable from the initial values is consistent |
| `Sessions.DragSession` | Toyosaki_ITE18/src/script.js:96-110 | through any moves and frames of a drag: the drag and target stay, the offset is fixed, rotation and colour are frozen, the grabbed point is where the cursor last met the plane, and the click is still armed exactly when there was no move |
| `Sessions.IdleSpin` | Toyosaki_ITE18/src/script.js:52-55 | with no drag in progress, moves change nothing and n frames add n spin steps to rotation x and y |
| `Sessions.PressAndRelease` | Toyosaki_ITE18/src/script.js:62-98 | a press on the star, then moves and frames, then a release: the star is recoloured with the draw exactly when there was no move and the release came less than 150 ms after the press. Otherwise the colour is kept |
| `Sessions.MovedPressNeverClicks` | Toyosaki_ITE18/src/script.js:88-98 | any move between press and release cancels the click, whatever the elapsed time |
| `Sessions.MissedPress` | Toyosaki_ITE18/src/script.js:62-110 | from idle, a missed press and whatever moves, frames and release follow keep the position, colour and offset. The machine ends idle, and only the idle spin changes rotation |
| `Sessions.MissWhileHeldStillClicks` | Toyosaki_ITE18/src/script.js:62-90 | a missed press during an open drag, released within 150 ms, recolours the held star |
| `Scene.Mesh.constructor` | Toyosaki_ITE18/src/script.js:28-29 | the star starts at the origin, unrotated, coloured 0xffff00 |
| `Scene.Controller.constructor` | Toyosaki_ITE18/src/script.js:41-46 | the interaction variables start cleared: no drag, no click, no target, start time 0, zero offset |
| `Scene.Controller.MouseDown` | Toyosaki_ITE18/src/script.js:62-81 | updates the variables in place exactly as `Interaction.MouseDown`, leaves the star untouched, keeps the class invariant |
| `Scene.Controller.MouseUp` | Toyosaki_ITE18/src/script.js:83-94 | updates the variables and the held star's colour exactly as `Interaction.MouseUp`, and leaves the controller idle |
| `Scene.Controller.MouseMove` | Toyosaki_ITE18/src/script.js:96-110 | updates the flag and the held star's position exactly as `Interaction.MouseMove`. After the move, while dragging, the grabbed point is at the cursor's plane point |
| `Scene.Controller.Animate` | Toyosaki_ITE18/src/script.js:49-58 | spins the star in place exactly as `Interaction.Animate` |
| `Scene.DragScenario` | Toyosaki_ITE18/src/script.js:62-110 | on a fresh scene, press, drag and release at 50 ms move the star by the cursor displacement and leave its colour 0xffff00 |

## Left out

- Scene, camera, renderer, lights, material and geometry set-up (script.js:2-6, 24-36): library object construction with no logic of its own.
- `createStarShape` (script.js:9-21): floating-point trigonometry feeding a library shape.
- Raycasting against the star and against the drag plane (script.js:70-71, 102-107): library geometry. Their results are inputs (`hit`, `planeHit`).
- Converting screen coordinates to normalised device coordinates (script.js:67-68, 99-100): browser plumbing that only feeds the raycaster.
- `Math.random()` and `performance.now()`: host sources, passed in as `rand` and `now`.
- `requestAnimationFrame`, `renderer.render` and `addEventListener` (script.js:50, 57, 113-115): the host's event loop and drawing. Event dispatch is modelled as a sequence of events applied one at a time.
- Floating-point arithmetic: vectors, times and rotations are reals. So `position + dragOffset == planePoint` holds exactly here; in doubles it holds only up to rounding.
- `setHex`'s conversion of the hex value to linear RGB components: the colour is kept as the hex value.
- The material belongs to the mesh in the model (`Mesh.color`); in the script the star has its own single material, so the two are the same.
