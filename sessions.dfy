/** Sequences of events as the browser dispatches them to the handlers and the
    animation loop, one at a time on a single thread, and what such sequences do. */
module Sessions {
  import opened Wrappers
  import opened Vectors
  import opened Interaction

  datatype Event =
    | Down(now: real, hit: Option<Vec3>)
    | Move(planeHit: Option<Vec3>)
    | Up(now: real, rand: real)
    | Frame

  /** The random draw of a release lies in [0, 1), as `Math.random()` promises. */
  predicate WellFormed(e: Event) {
    e.Up? ==> 0.0 <= e.rand < 1.0
  }

  predicate AllWellFormed(es: seq<Event>) {
    forall i :: 0 <= i < |es| ==> WellFormed(es[i])
  }

  function Step(s: State, e: Event): State
    requires WellFormed(e)
  {
    match e
    case Down(now, hit) => MouseDown(s, now, hit)
    case Move(planeHit) => MouseMove(s, planeHit)
    case Up(now, rand) => MouseUp(s, now, rand)
    case Frame => Animate(s)
  }

  function Run(s: State, es: seq<Event>): State
    requires AllWellFormed(es)
    decreases es
  {
    if es == [] then s else Run(Step(s, es[0]), es[1..])
  }

  /** Only moves and animation frames: what happens between a press and its release. */
  predicate Between(es: seq<Event>) {
    forall i :: 0 <= i < |es| ==> es[i].Move? || es[i].Frame?
  }

  predicate HasMove(es: seq<Event>) {
    exists i :: 0 <= i < |es| && es[i].Move?
  }

  function Frames(es: seq<Event>): nat {
    if es == [] then 0 else (if es[0].Frame? then 1 else 0) + Frames(es[1..])
  }

  /** Where the cursor meets the drag plane after `es`, starting from `at`. */
  function Cursor(es: seq<Event>, at: Vec3): Vec3 {
    if es == [] then at
    else Cursor(es[1..], if es[0].Move? then PlanePoint(es[0].planeHit) else at)
  }

  lemma BetweenWellFormed(es: seq<Event>)
    requires Between(es)
    ensures AllWellFormed(es)
  {
  }

  /** Every reachable state keeps `isDragging` and the target together. */
  lemma {:induction false} RunConsistent(s: State, es: seq<Event>)
    requires AllWellFormed(es) && Consistent(s)
    ensures Consistent(Run(s, es))
    decreases es
  {
    if es != [] {
      RunConsistent(Step(s, es[0]), es[1..]);
    }
  }

  lemma ReachableConsistent(es: seq<Event>)
    requires AllWellFormed(es)
    ensures Consistent(Run(Initial, es))
  {
    RunConsistent(Initial, es);
  }

  /** During a drag the offset is fixed, the spin is frozen, the grabbed point is where the
      cursor last met the drag plane, and the click survives exactly when nothing moved. */
  lemma {:induction false} DragSession(s: State, es: seq<Event>)
    requires s.isDragging && s.hasTarget && Between(es)
    ensures AllWellFormed(es)
    ensures var r := Run(s, es);
      r.isDragging && r.hasTarget
      && r.dragOffset == s.dragOffset
      && r.rotation == s.rotation && r.color == s.color
      && r.clickStartTime == s.clickStartTime
      && Grabbed(r) == Cursor(es, Grabbed(s))
      && r.isClick == (s.isClick && !HasMove(es))
    decreases es
  {
    BetweenWellFormed(es);
    if es != [] {
      var t := Step(s, es[0]);
      assert Between(es[1..]);
      DragSession(t, es[1..]);
      if es[0].Move? {
        assert HasMove(es) by { assert es[0].Move?; }
      } else {
        assert t == s;
        assert HasMove(es) == HasMove(es[1..]) by {
          if HasMove(es) {
            var i :| 0 <= i < |es| && es[i].Move?;
            assert es[1..][i - 1].Move?;
          }
          if HasMove(es[1..]) {
            var i :| 0 <= i < |es[1..]| && es[1..][i].Move?;
            assert es[i + 1].Move?;
          }
        }
      }
    }
  }

  /** With no drag in progress, moves do nothing and every frame spins the star. */
  lemma {:induction false} IdleSpin(s: State, es: seq<Event>)
    requires !s.isDragging && Between(es)
    ensures AllWellFormed(es)
    ensures Run(s, es) == s.(rotation := Spun(s.rotation, Frames(es)))
    decreases es
  {
    BetweenWellFormed(es);
    if es != [] {
      var t := Step(s, es[0]);
      assert Between(es[1..]);
      IdleSpin(t, es[1..]);
    }
  }

  /** A press on the star followed by moves and frames and then a release recolours the
      star exactly when nothing moved in between and the release came in under 150 ms. */
  lemma PressAndRelease(s: State, t0: real, p: Vec3, es: seq<Event>, t1: real, rand: real)
    requires Between(es) && 0.0 <= rand < 1.0
    ensures AllWellFormed(es)
    ensures var r := MouseUp(Run(MouseDown(s, t0, Some(p)), es), t1, rand);
      r.color == (if !HasMove(es) && t1 - t0 < ClickThreshold then RandomHex(rand) else s.color)
  {
    DragSession(MouseDown(s, t0, Some(p)), es);
  }

  /** Any move between press and release, however quick, cancels the click. */
  lemma MovedPressNeverClicks(s: State, t0: real, p: Vec3, es: seq<Event>, t1: real, rand: real)
    requires Between(es) && HasMove(es) && 0.0 <= rand < 1.0
    ensures AllWellFormed(es)
    ensures MouseUp(Run(MouseDown(s, t0, Some(p)), es), t1, rand).color == s.color
  {
    PressAndRelease(s, t0, p, es, t1, rand);
  }

  /** From an idle state, a press that misses the star and whatever moves, frames and
      release follow leave its position and colour alone. */
  lemma {:induction false} MissedPress(s: State, t0: real, es: seq<Event>, t1: real, rand: real)
    requires Idle(s) && Between(es) && 0.0 <= rand < 1.0
    ensures AllWellFormed(es)
    ensures var r := MouseUp(Run(MouseDown(s, t0, None), es), t1, rand);
      Idle(r) && r.position == s.position && r.color == s.color && r.dragOffset == s.dragOffset
      && r.rotation == Spun(s.rotation, Frames(es))
  {
    IdleSpin(MouseDown(s, t0, None), es);
  }

  /** A press that misses while an earlier drag session is still open re-arms the click:
      a quick release then recolours the star that is still held. */
  lemma MissWhileHeldStillClicks(s: State, t0: real, t1: real, rand: real)
    requires s.isDragging && s.hasTarget && t0 <= t1 < t0 + ClickThreshold && 0.0 <= rand < 1.0
    ensures MouseUp(MouseDown(s, t0, None), t1, rand).color == RandomHex(rand)
  {
  }
}
