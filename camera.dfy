/**
 * The 2D camera of src/camera.py: a viewport grown by a buffer, a position
 * that moves by `+`, visibility as overlap of the camera box with an object's
 * square box, and the change to camera-local coordinates.
 */
module Camera {
  import opened Utils

  /** The buffer `ViewportSize2d` adds by default around the visible area. */
  const DefaultBuffer: real := 5.0

  /** A viewport: width, height and the buffer the camera adds to both. */
  datatype ViewportSize2d = ViewportSize2d(x: real, y: real, buffer: real)

  /** `ViewportSize2d(x, y)` with the buffer left at its default. */
  function Viewport(x: real, y: real, buffer: real := DefaultBuffer): ViewportSize2d {
    ViewportSize2d(x, y, buffer)
  }

  /** An open interval of coordinates. */
  datatype Span = Span(lo: real, hi: real)

  /** The open interval of width `extent` centred on `center`. */
  function Around(center: real, extent: real): Span {
    Span(center - extent / 2.0, center + extent / 2.0)
  }

  /** `v` lies strictly inside `s`. */
  predicate Within(v: real, s: Span) {
    s.lo < v < s.hi
  }

  /** Two open intervals have a point in common. */
  ghost predicate SharePoint(a: Span, b: Span) {
    exists v :: Within(v, a) && Within(v, b)
  }

  /** For two non-empty intervals, strict overlap of the end points is having a common point. */
  lemma OverlapIffSharePoint(a: Span, b: Span)
    requires a.lo < a.hi && b.lo < b.hi
    ensures a.lo < b.hi && b.lo < a.hi <==> SharePoint(a, b)
  {
    if a.lo < b.hi && b.lo < a.hi {
      var lo := if a.lo < b.lo then b.lo else a.lo;
      var hi := if a.hi < b.hi then a.hi else b.hi;
      assert Within((lo + hi) / 2.0, a) && Within((lo + hi) / 2.0, b);
    }
  }

  /** The absolute value of a real. */
  function Abs(r: real): real {
    if r < 0.0 then -r else r
  }

  class Camera2d {
    /** The viewport as given. */
    var realsize: ViewportSize2d
    /** Where the camera is centred. */
    var pos: Position2d
    /** The viewport grown by its buffer on both axes: the size culling uses. */
    var size: ViewportSize2d

    /**
     * `Camera2d(size, initial_pos)`: keep a copy of the viewport, then grow a
     * second copy by the buffer along x and along y.
     */
    constructor(viewport: ViewportSize2d, initialPos: Position2d := Origin)
      ensures realsize == viewport && pos == initialPos
      ensures size == ViewportSize2d(viewport.x + viewport.buffer, viewport.y + viewport.buffer, viewport.buffer)
    {
      realsize := viewport;
      pos := initialPos;
      size := viewport;
      new;
      size := size.(x := size.x + size.buffer);
      size := size.(y := size.y + size.buffer);
    }

    /**
     * `IsVisible(pos, size)`: the camera box and the square box of side
     * `objSize` around `p` overlap strictly along both axes, so along each axis
     * the two centres are closer than half the sum of the two extents.
     */
    function IsVisible(p: Position2d, objSize: real): (vis: bool)
      reads this
      ensures vis <==> Abs(p.x - pos.x) < (size.x + objSize) / 2.0 && Abs(p.y - pos.y) < (size.y + objSize) / 2.0
    {
      && pos.x - size.x / 2.0 < p.x + objSize / 2.0
      && pos.x + size.x / 2.0 > p.x - objSize / 2.0
      && pos.y - size.y / 2.0 < p.y + objSize / 2.0
      && pos.y + size.y / 2.0 > p.y - objSize / 2.0
    }

    /** `Move(new_pos)`: `pos += new_pos`, so the rotation stays normalised. */
    method Move(delta: Position2d)
      modifies this
      ensures pos == PositionPlus(old(pos), delta) && Normalized(pos.rot)
      ensures size == old(size) && realsize == old(realsize)
    {
      pos := PositionPlus(pos, delta);
    }

    /**
     * `GlobalToLocal(global_pos)`: the position relative to the camera. Adding
     * the camera's x and y back gives the global coordinates; the rotation is
     * the global one, normalised by the new position's `__post_init__`.
     */
    function GlobalToLocal(g: Position2d): (l: Position2d)
      reads this
      ensures l.x + pos.x == g.x && l.y + pos.y == g.y
      ensures Normalized(l.rot) && SameAngle(g.rot.x, l.rot.x)
      ensures Normalized(g.rot) ==> l.rot == g.rot
    {
      NewPosition(g.x - pos.x, g.y - pos.y, g.rot)
    }
  }

  /**
   * Seen from the camera, an object is visible exactly when its local offset
   * along each axis is less than half the sum of the two extents.
   */
  lemma VisibleInLocalFrame(cam: Camera2d, p: Position2d, objSize: real)
    ensures var l := cam.GlobalToLocal(p);
      cam.IsVisible(p, objSize) <==>
        Abs(l.x) < (cam.size.x + objSize) / 2.0 && Abs(l.y) < (cam.size.y + objSize) / 2.0
  {
  }

  /** For boxes of positive extent, visible means some point lies strictly inside both the camera box and the object box. */
  lemma VisibleIffSharePoint(cam: Camera2d, p: Position2d, objSize: real)
    requires cam.size.x > 0.0 && cam.size.y > 0.0 && objSize > 0.0
    ensures cam.IsVisible(p, objSize) <==>
      SharePoint(Around(cam.pos.x, cam.size.x), Around(p.x, objSize)) && SharePoint(Around(cam.pos.y, cam.size.y), Around(p.y, objSize))
  {
    OverlapIffSharePoint(Around(cam.pos.x, cam.size.x), Around(p.x, objSize));
    OverlapIffSharePoint(Around(cam.pos.y, cam.size.y), Around(p.y, objSize));
  }

  /** A size-0 object strictly inside the camera box is visible, although its own box holds no point. */
  lemma PointObjectVisible(cam: Camera2d)
    requires cam.size.x > 0.0 && cam.size.y > 0.0
    ensures cam.IsVisible(cam.pos, 0.0) && !SharePoint(Around(cam.pos.x, cam.size.x), Around(cam.pos.x, 0.0))
  {
  }

  /** A box that only touches the right edge of the camera box is not visible: the tests are strict. */
  lemma TouchingRightEdgeNotVisible(cam: Camera2d, p: Position2d, objSize: real)
    requires p.x - objSize / 2.0 == cam.pos.x + cam.size.x / 2.0
    ensures !cam.IsVisible(p, objSize)
  {
  }

  /** A box that only touches the top edge of the camera box is not visible either. */
  lemma TouchingTopEdgeNotVisible(cam: Camera2d, p: Position2d, objSize: real)
    requires p.y - objSize / 2.0 == cam.pos.y + cam.size.y / 2.0
    ensures !cam.IsVisible(p, objSize)
  {
  }

  /**
   * A camera made from `Viewport(100, 100)` at the origin culls with a
   * 105 by 105 box (`DefaultBufferCamera`): a size-10 object at (50, 50) is visible, one at
   * (1000, 1000) is not.
   */
  lemma ViewportExample(cam: Camera2d)
    requires cam.pos == Origin
    requires cam.size == ViewportSize2d(105.0, 105.0, DefaultBuffer)
    ensures cam.IsVisible(Position2d(50.0, 50.0, Rotation2d(0.0)), 10.0)
    ensures !cam.IsVisible(Position2d(1000.0, 1000.0, Rotation2d(0.0)), 10.0)
  {
  }

  /**
   * `Camera2d(ViewportSize2d(100, 100))` at the default position culls with a
   * 105 by 105 box: a size-10 object at (50, 50) is visible, one at (1000, 1000)
   * is not.
   */
  method DefaultBufferCamera() returns (near: bool, far: bool)
    ensures near && !far
  {
    var cam := new Camera2d(Viewport(100.0, 100.0));
    ViewportExample(cam);
    near := cam.IsVisible(Position2d(50.0, 50.0, Rotation2d(0.0)), 10.0);
    far := cam.IsVisible(Position2d(1000.0, 1000.0, Rotation2d(0.0)), 10.0);
  }
}
