/** The script's mutable objects: the star mesh, whose transform and material colour
    are updated in place, and the module-level interaction variables with the
    three pointer handlers and the animation frame that change them. */
module Scene {
  import opened Wrappers
  import opened Vectors
  import I = Interaction

  /** The star mesh. `color` is the hex value of its material's colour. */
  class Mesh {
    var position: Vec3
    var rotation: Vec3
    var color: int

    constructor ()
      ensures position == Zero && rotation == Zero && color == I.InitialColor
    {
      position := Zero;
      rotation := Zero;
      color := I.InitialColor;
    }
  }

  /** The interaction variables, bound to the one pickable mesh `star`. */
  class Controller {
    const star: Mesh
    var isDragging: bool
    var dragOffset: Vec3
    var intersectedObject: Mesh?
    var isClick: bool
    var clickStartTime: real

    /** The snapshot the pure state machine works on. */
    ghost function Abstract(): I.State
      reads this, star
    {
      I.State(isDragging, isClick, intersectedObject != null, clickStartTime, dragOffset,
              star.position, star.rotation, star.color)
    }

    /** Only the star is ever intersected, and it is held exactly while dragging. */
    ghost predicate Valid()
      reads this, star
    {
      (intersectedObject == null || intersectedObject == star) && I.Consistent(Abstract())
    }

    constructor (star: Mesh)
      ensures this.star == star && Valid()
      ensures Abstract() == I.Initial.(position := star.position, rotation := star.rotation,
                                       color := star.color)
    {
      this.star := star;
      isDragging := false;
      dragOffset := Zero;
      intersectedObject := null;
      isClick := false;
      clickStartTime := 0.0;
    }

    /** `onMouseDown` at time `now`; `hit` is the nearest point where the pointer ray
        meets the star, if it does. */
    method MouseDown(now: real, hit: Option<Vec3>)
      requires Valid()
      modifies this
      ensures Valid() && unchanged(star)
      ensures Abstract() == I.MouseDown(old(Abstract()), now, hit)
    {
      isClick := true;
      clickStartTime := now;
      if hit.Some? {
        intersectedObject := star;
        isDragging := true;
        dragOffset := Sub(hit.value, intersectedObject.position);
      }
    }

    /** `onMouseUp` at time `now`; `rand` is the `Math.random()` draw. */
    method MouseUp(now: real, rand: real)
      requires Valid() && 0.0 <= rand < 1.0
      modifies this, star
      ensures Valid() && I.Idle(Abstract())
      ensures Abstract() == I.MouseUp(old(Abstract()), now, rand)
    {
      var clickDuration := now - clickStartTime;
      isDragging := false;
      if isClick && clickDuration < I.ClickThreshold && intersectedObject != null {
        intersectedObject.color := I.RandomHex(rand);
      }
      isClick := false;
      intersectedObject := null;
    }

    /** `onMouseMove`; `planeHit` is where the pointer ray meets the plane z = 0, if it does. */
    method MouseMove(planeHit: Option<Vec3>)
      requires Valid()
      modifies this, star
      ensures Valid()
      ensures Abstract() == I.MouseMove(old(Abstract()), planeHit)
      ensures isDragging ==> I.Grabbed(Abstract()) == I.PlanePoint(planeHit)
    {
      if isDragging && intersectedObject != null {
        isClick := false;
        var intersectionPoint := Zero;
        if planeHit.Some? {
          intersectionPoint := planeHit.value;
        }
        intersectedObject.position := Sub(intersectionPoint, dragOffset);
      }
    }

    /** The body of `animate` that touches the scene: the idle spin. */
    method Animate()
      requires Valid()
      modifies star
      ensures Valid()
      ensures Abstract() == I.Animate(old(Abstract()))
    {
      if !isDragging {
        star.rotation := I.Spun(star.rotation, 1);
      }
    }
  }

  /** A freshly loaded scene: press the star at `grab` at time 0, drag the pointer to
      `cursor` on the drag plane, release at 50 ms. The star moves, its colour does not. */
  method DragScenario(grab: Vec3, cursor: Vec3, rand: real) returns (position: Vec3, color: int)
    requires 0.0 <= rand < 1.0
    ensures color == I.InitialColor
    ensures position == Sub(cursor, grab)
  {
    var star := new Mesh();
    var controller := new Controller(star);
    controller.MouseDown(0.0, Some(grab));
    controller.MouseMove(Some(cursor));
    controller.MouseUp(50.0, rand);
    position, color := star.position, star.color;
  }
}
