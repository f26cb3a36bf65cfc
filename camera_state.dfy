/** The camera's input bookkeeping: mouse and wheel handlers accumulate
    pending rotation, orientation nudges and movement, and update() drains
    them into the orientation and position once per frame. The vector
    geometry (rotation about an axis, normalisation, look-at and perspective
    matrices, the right-vector transform) is taken as given functions. */
module CameraState {
  import opened Vectors

  /** Qt::LeftButton. */
  const LEFT_BUTTON: int := 1

  /** A 4x4 matrix, row by row. */
  datatype Mat4 = Mat4(entries: seq<real>)

  const Identity: Mat4 := Mat4([1.0, 0.0, 0.0, 0.0,
                                0.0, 1.0, 0.0, 0.0,
                                0.0, 0.0, 1.0, 0.0,
                                0.0, 0.0, 0.0, 1.0])

  /** The geometric library update() calls into. */
  datatype Geometry = Geometry(
    rotate: (Vec3, real, Vec3) -> Vec3,         // rotate a vector by an angle in radians about an axis
    normalize: Vec3 -> Vec3,
    radians: real -> real,
    lookAt: (Vec3, Vec3, Vec3) -> Mat4,         // eye, centre, up
    perspective: (real, real, real, real) -> Mat4,  // vertical field of view in degrees, aspect, near, far
    rightOf: (Vec3, Mat4) -> Vec3)              // (right, 1) times the view matrix, normalised

  /** The sign of `v` as -1, 0 or 1. */
  function Sgn(v: real): real {
    (if 0.0 < v then 1.0 else 0.0) - (if v < 0.0 then 1.0 else 0.0)
  }

  /** The sign is 1, 0 or -1 exactly when the value is positive, zero or
      negative. */
  lemma SgnCases(v: real)
    ensures Sgn(v) == 1.0 <==> v > 0.0
    ensures Sgn(v) == 0.0 <==> v == 0.0
    ensures Sgn(v) == -1.0 <==> v < 0.0
  {
  }

  lemma SgnOdd(v: real)
    ensures Sgn(-v) == -Sgn(v)
  {
  }

  /** Only the direction of a mouse move matters, not its length. */
  lemma SgnScaleFree(v: real, k: real)
    requires k > 0.0
    ensures Sgn(k * v) == Sgn(v)
  {
    if v > 0.0 {
      assert k * v > 0.0;
    } else if v < 0.0 {
      assert k * v < 0.0;
    }
  }

  /** The pending input the handlers produce and update() consumes. */
  datatype Pending = Pending(cord: Vec2, rotationX: real, rotationY: real, orientation: Vec3, movement: Vec3)

  /** A mouse move to (x, y) with the left button alone held: the cursor is
      recorded, the pending rotation steps against the horizontal direction
      and the orientation is nudged by the signs of the move. */
  function Dragged(p: Pending, x: int, y: int): (r: Pending)
    ensures r.rotationX == p.rotationX - 0.01 * Sgn(x as real - p.cord.x)
    ensures r.orientation == Add(p.orientation, Vec3(0.0, 0.01 * Sgn(y as real - p.cord.y), 0.01 * Sgn(x as real - p.cord.x)))
    ensures r.cord == Vec2(x as real, y as real)
    ensures r.rotationY == p.rotationY && r.movement == p.movement
  {
    var sx, sy := Sgn(x as real - p.cord.x), Sgn(y as real - p.cord.y);
    var change := Vec2(-sx, sy);
    p.(cord := Vec2(x as real, y as real),
       rotationX := p.rotationX + change.x * 0.01,
       orientation := Add(p.orientation, Scale(0.01, Vec3(0.0, change.y, -change.x))))
  }

  /** Dragging right lowers the pending rotation and dragging left raises
      it, while a purely vertical drag leaves it alone; the orientation's
      z turns with the horizontal direction, its y with the vertical one,
      and its x never moves. */
  lemma DragDirection(p: Pending, x: int, y: int)
    ensures Dragged(p, x, y).rotationX < p.rotationX <==> x as real > p.cord.x
    ensures Dragged(p, x, y).rotationX > p.rotationX <==> x as real < p.cord.x
    ensures Dragged(p, x, y).orientation.z > p.orientation.z <==> x as real > p.cord.x
    ensures Dragged(p, x, y).orientation.y > p.orientation.y <==> y as real > p.cord.y
    ensures Dragged(p, x, y).orientation.x == p.orientation.x
  {
    SgnCases(x as real - p.cord.x);
    SgnCases(y as real - p.cord.y);
  }

  /** Two drags from the same point in the same directions nudge alike,
      however far each one moved. */
  lemma DragStepIsFixed(p: Pending, x1: int, y1: int, x2: int, y2: int)
    requires Sgn(x1 as real - p.cord.x) == Sgn(x2 as real - p.cord.x)
    requires Sgn(y1 as real - p.cord.y) == Sgn(y2 as real - p.cord.y)
    ensures Dragged(p, x1, y1).rotationX == Dragged(p, x2, y2).rotationX
    ensures Dragged(p, x1, y1).orientation == Dragged(p, x2, y2).orientation
  {
  }

  /** One drag changes the pending rotation by at most one step. */
  lemma DragBounded(p: Pending, x: int, y: int)
    ensures -0.01 <= Dragged(p, x, y).rotationX - p.rotationX <= 0.01
  {
  }

  /** The z-movement one wheel event adds: 3*speed up, -3*speed down, none
      for a zero delta. */
  function WheelStep(deltaY: int, speed: real): (dz: real)
    ensures dz == 3.0 * speed * Sgn(deltaY as real)
  {
    if deltaY > 0 then 3.0 * speed
    else if deltaY < 0 then 3.0 * -speed
    else 0.0
  }

  /** The pending z-movement after a run of wheel events. */
  function WheelAll(dz: real, deltas: seq<int>, speed: real): real
    decreases |deltas|
  {
    if deltas == [] then dz else WheelAll(dz + WheelStep(deltas[0], speed), deltas[1..], speed)
  }

  function Ups(deltas: seq<int>): nat {
    if deltas == [] then 0 else (if deltas[0] > 0 then 1 else 0) + Ups(deltas[1..])
  }

  function Downs(deltas: seq<int>): nat {
    if deltas == [] then 0 else (if deltas[0] < 0 then 1 else 0) + Downs(deltas[1..])
  }

  /** Wheel events queue 3*speed of movement per notch up, minus as much per
      notch down, whatever their order. */
  lemma {:induction false} WheelAllCounts(dz: real, deltas: seq<int>, speed: real)
    ensures WheelAll(dz, deltas, speed) == dz + 3.0 * speed * ((Ups(deltas) - Downs(deltas)) as real)
    decreases |deltas|
  {
    if deltas != [] {
      WheelAllCounts(dz + WheelStep(deltas[0], speed), deltas[1..], speed);
    }
  }

  /** The position after update() with pending `movement`: forward along the
      new orientation by z, sideways along the new right vector by x, and
      vertically by y. */
  function Advance(position: Vec3, movement: Vec3, orientation: Vec3, right: Vec3): Vec3
  {
    Add(Add(Add(position, Scale(movement.z, orientation)), Scale(movement.x, right)), Vec3(0.0, movement.y, 0.0))
  }

  /** Without pending movement update() leaves the position alone. */
  lemma AdvanceStill(position: Vec3, orientation: Vec3, right: Vec3)
    ensures Advance(position, Zero3, orientation, right) == position
  {
  }

  /** Movement queued in two parts moves the camera as far as the sum. */
  lemma AdvanceAdditive(position: Vec3, m1: Vec3, m2: Vec3, orientation: Vec3, right: Vec3)
    ensures Advance(position, Add(m1, m2), orientation, right)
            == Advance(Advance(position, m1, orientation, right), m2, orientation, right)
  {
  }

  /** Pure wheel movement travels along the orientation by exactly dz of it. */
  lemma AdvanceForward(position: Vec3, dz: real, orientation: Vec3, right: Vec3)
    ensures Sub(Advance(position, Vec3(0.0, 0.0, dz), orientation, right), position) == Scale(dz, orientation)
  {
  }

  /** The width-to-height ratio stored as `aspect`. */
  function AspectRatio(width: nat, height: nat): (r: real)
    requires height > 0
    ensures r * (height as real) == width as real
    ensures r > 0.0 <==> width > 0
  {
    (width as real) / (height as real)
  }

  lemma SquareViewport()
    ensures AspectRatio(800, 800) == 1.0 && AspectRatio(800, 400) == 2.0
  {
  }

  /** The values the camera's declaration gives its fields before the
      constructor body runs. */
  datatype Declared = Declared(orientation: Vec3, up: Vec3, right: Vec3, speed: real,
                               rotationX: real, rotationY: real, movement: Vec3, cord: Vec2,
                               model: Mat4, view: Mat4, projection: Mat4)

  class Camera {
    var width: nat
    var height: nat
    var aspect: real
    var position: Vec3
    var orientation: Vec3
    var up: Vec3
    var right: Vec3
    var rotationX: real
    var rotationY: real
    var movement: Vec3
    var cord: Vec2
    var speed: real
    var model: Mat4
    var view: Mat4
    var projection: Mat4

    function Input(): Pending
      reads this
    {
      Pending(cord, rotationX, rotationY, orientation, movement)
    }

    /** Everything but the pending input and the matrices. */
    function Frame(): (nat, nat, real, Vec3, Vec3, Vec3, real)
      reads this
    {
      (width, height, aspect, position, up, right, speed)
    }

    constructor (width: nat, height: nat, position: Vec3, init: Declared)
      requires height > 0
      ensures Frame() == (width, height, AspectRatio(width, height), position, init.up, init.right, init.speed)
      ensures Input() == Pending(init.cord, init.rotationX, init.rotationY, init.orientation, init.movement)
      ensures model == init.model && view == init.view && projection == init.projection
    {
      this.width := width;
      this.height := height;
      aspect := (width as real) / (height as real);
      this.position := position;
      orientation, up, right, speed := init.orientation, init.up, init.right, init.speed;
      rotationX, rotationY, movement, cord := init.rotationX, init.rotationY, init.movement, init.cord;
      model, view, projection := init.model, init.view, init.projection;
    }

    method MousePressEvent(x: int, y: int)
      modifies this
      ensures Input() == old(Input()).(cord := Vec2(x as real, y as real))
      ensures Frame() == old(Frame()) && model == old(model) && view == old(view) && projection == old(projection)
    {
      cord := Vec2(x as real, y as real);
    }

    /** A mouse move with `buttons` held: anything but the left button alone
        is ignored. */
    method MouseMove(buttons: int, x: int, y: int)
      modifies this
      ensures Input() == if buttons == LEFT_BUTTON then Dragged(old(Input()), x, y) else old(Input())
      ensures Frame() == old(Frame()) && model == old(model) && view == old(view) && projection == old(projection)
    {
      if buttons == LEFT_BUTTON {
        var change := Vec2(-Sgn(x as real - cord.x), Sgn(y as real - cord.y));
        cord := Vec2(x as real, y as real);
        rotationX := rotationX + change.x * 0.01;
        orientation := Add(orientation, Scale(0.01, Vec3(0.0, change.y, -change.x)));
      }
    }

    /** Only the aspect ratio follows the new size; the stored width and
        height keep their constructor values. */
    method Resize(newWidth: nat, newHeight: nat)
      requires newHeight > 0
      modifies this
      ensures aspect == AspectRatio(newWidth, newHeight)
      ensures (width, height, position, up, right, speed) == old((width, height, position, up, right, speed))
      ensures Input() == old(Input()) && model == old(model) && view == old(view) && projection == old(projection)
    {
      aspect := (newWidth as real) / (newHeight as real);
    }

    method WheelEvent(deltaY: int)
      modifies this
      ensures Input() == old(Input()).(movement := old(movement).(z := old(movement.z) + WheelStep(deltaY, speed)))
      ensures Frame() == old(Frame()) && model == old(model) && view == old(view) && projection == old(projection)
    {
      if deltaY > 0 {
        movement := Add(movement, Vec3(0.0, 0.0, 3.0 * speed));
      } else if deltaY < 0 {
        movement := Add(movement, Vec3(0.0, 0.0, 3.0 * -speed));
      }
    }

    /** Per-frame update: rotate the orientation by the pending rotations,
        rebuild the view and projection, move by the pending movement along
        the new orientation and right vector, and clear what was pending. The
        frame counter is accepted and unused. */
    method Update(fovd: real, near: real, far: real, totalFrameCount: nat, geo: Geometry)
      returns (m: Mat4, v: Mat4, p: Mat4, direction: Vec3)
      modifies this
      ensures rotationX == 0.0 && rotationY == 0.0 && movement == Zero3 && cord == old(cord)
      ensures model == Identity
      ensures orientation == old(geo.rotate(geo.rotate(orientation, geo.radians(-rotationX), geo.normalize(Cross(orientation, up))),
                                            geo.radians(-rotationY), up))
      ensures var o := orientation; view == old(geo.lookAt(position, Add(position, o), up))
      ensures var o, vw := orientation, view; position == old(Advance(position, movement, o, geo.rightOf(right, vw)))
      ensures var a := aspect; projection == old(geo.perspective(fovd, a, near, far))
      ensures (width, height, aspect, up, right, speed) == (old(width), old(height), old(aspect), old(up), old(right), old(speed))
      ensures m == model && v == view && p == projection && direction == orientation
    {
      var o := geo.rotate(orientation, geo.radians(-rotationX), geo.normalize(Cross(orientation, up)));
      o := geo.rotate(o, geo.radians(-rotationY), up);
      var newView := geo.lookAt(position, Add(position, o), up);
      var newRight := geo.rightOf(right, newView);
      var pos := Advance(position, movement, o, newRight);
      model, rotationX, rotationY, orientation, view := Identity, 0.0, 0.0, o, newView;
      position, movement, projection := pos, Zero3, geo.perspective(fovd, aspect, near, far);
      return model, view, projection, orientation;
    }
  }
}
