/** The view of the molecule (dist/index.js): the module-level `rotationMatrix`,
    `viewMatrix` and `zoomLevel`, the `mouseInfo` record the input handlers fill, and
    `updateViewMatrix`, which folds the pending mouse input into the rotation and the
    zoom once per frame.  `Math.sin`, `Math.cos` and `Math.exp` are foreign and are
    passed in; the canvas size is a parameter. */
module View {
  import opened Matrix

  /** `Math.PI`. */
  const Pi: real := 3.141592653589793

  /** The zoom level the viewer starts with. */
  const InitialZoom: real := -3.7

  datatype Point = Point(x: real, y: real)

  function Max(a: real, b: real): real { if a >= b then a else b }

  /** The pending mouse input: the position and wheel total last consumed and the ones
      the event handlers have recorded since. */
  class MouseInfo {
    var rotZ: bool
    var prevPos: Point
    var curPos: Point
    var prevMwheel: real
    var curMwheel: real

    constructor ()
      ensures !rotZ && prevPos == curPos == Point(0.0, 0.0) && prevMwheel == curMwheel == 0.0
    {
      rotZ := false;
      prevPos, curPos := Point(0.0, 0.0), Point(0.0, 0.0);
      prevMwheel, curMwheel := 0.0, 0.0;
    }

    /** Marks this frame's input as consumed: the previous position and wheel catch up with
        the current ones. */
    method Consume()
      modifies this
      ensures prevPos == curPos == old(curPos) && prevMwheel == curMwheel == old(curMwheel)
      ensures rotZ == old(rotZ)
    {
      prevPos, prevMwheel := curPos, curMwheel;
    }
  }

  /** The radians one pixel of drag turns: a drag across the larger canvas side is two
      full turns. */
  function RotationScale(width: real, height: real): real
    requires width > 0.0 && height > 0.0
  {
    Pi * 4.0 / Max(width, height)
  }

  /** The rotation one frame's drag `(dx, dy)` applies: about z for a horizontal drag when
      `rotZ` is set, otherwise about y for the horizontal and about x for the vertical
      component, in that order. */
  function MouseRotation(dx: real, dy: real, rotZ: bool, scale: real,
                         sin: real -> real, cos: real -> real): Mat
  {
    if rotZ then RotZ(sin(dx * scale), cos(dx * scale))
    else Product(RotY(sin(dx * scale), cos(dx * scale)), RotX(sin(dy * scale), cos(dy * scale)))
  }

  /** The zoom after the wheel moved from `prev` to `cur`: 200 wheel units per e-fold,
      wheel down zooming out. */
  function ZoomAfter(zoom: real, prev: real, cur: real): real
  {
    zoom + (cur - prev) / -200.0
  }

  /** `rotationMatrix.mul(unit().aspect(w / h)).scale(exp(zoom))`. */
  function ViewOf(rotation: Mat, zoom: real, width: real, height: real, exp: real -> real): Mat
    requires width > 0.0 && height > 0.0
  {
    Scaled(Product(rotation, Aspected(Unit(), width / height)), exp(zoom))
  }

  /** The view matrix entry by entry: column 0 is compressed by the aspect ratio and the
      three upper rows are scaled by exp(zoom); the bottom row only takes the aspect. */
  lemma ViewEntries(rotation: Mat, zoom: real, width: real, height: real, exp: real -> real, i: nat, j: nat)
    requires width > 0.0 && height > 0.0 && i < 4 && j < 4
    ensures ViewOf(rotation, zoom, width, height, exp)[i][j] ==
      (if i < 3 then exp(zoom) else 1.0) * (if j == 0 then rotation[i][j] * height / width else rotation[i][j])
  {
    var a := Aspected(Unit(), width / height);
    assert a[0][0] * (width / height) == 1.0;
    assert a[0][0] == height / width;
    MulEntry(rotation, a, i, j);
  }

  /** An idle frame — no drag since the last one — turns by nothing, given the trigonometry
      the caller supplies has sin 0 = 0 and cos 0 = 1. */
  lemma IdleFrameKeepsRotation(rotation: Mat, rotZ: bool, scale: real, sin: real -> real, cos: real -> real)
    requires sin(0.0) == 0.0 && cos(0.0) == 1.0
    ensures Product(rotation, MouseRotation(0.0, 0.0, rotZ, scale, sin, cos)) == rotation
  {
    if !rotZ {
      assert RotY(sin(0.0), cos(0.0)) == Unit();
      assert RotX(sin(0.0), cos(0.0)) == Unit();
      UnitLeft(Unit());
    } else {
      assert RotZ(sin(0.0), cos(0.0)) == Unit();
    }
    UnitRight(rotation);
  }

  /** An idle frame leaves the zoom level where it was. */
  lemma IdleFrameKeepsZoom(zoom: real, wheel: real)
    ensures ZoomAfter(zoom, wheel, wheel) == zoom
  {
  }

  /** Wheel input is never lost: consuming it over two frames moves the zoom as far as
      consuming it at once. */
  lemma ZoomAccumulates(zoom: real, w0: real, w1: real, w2: real)
    ensures ZoomAfter(ZoomAfter(zoom, w0, w1), w1, w2) == ZoomAfter(zoom, w0, w2)
  {
  }

  /** The transpose of a product is the product of the transposes, reversed. */
  lemma TransposeProduct(a: Mat, b: Mat)
    ensures Transpose(Product(a, b)) == Product(Transpose(b), Transpose(a))
  {
    var l, r := Transpose(Product(a, b)), Product(Transpose(b), Transpose(a));
    forall i, j | 0 <= i < 4 && 0 <= j < 4 ensures l[i][j] == r[i][j] {
      MulEntry(a, b, j, i);
      MulEntry(Transpose(b), Transpose(a), i, j);
    }
    Ext(l, r);
  }

  /** A product of orthonormal matrices is orthonormal. */
  lemma OrthonormalProduct(a: Mat, b: Mat)
    requires Orthonormal(a) && Orthonormal(b)
    ensures Orthonormal(Product(a, b))
  {
    var ta, tb := Transpose(a), Transpose(b);
    TransposeProduct(a, b);
    calc {
      Product(Product(a, b), Transpose(Product(a, b)));
      Product(Product(a, b), Product(tb, ta));
      { MulAssoc(a, b, Product(tb, ta)); }
      Product(a, Product(b, Product(tb, ta)));
      { MulAssoc(b, tb, ta); }
      Product(a, Product(Unit(), ta));
      { UnitLeft(ta); }
      Unit();
    }
  }

  /** With the trigonometric identity holding at the frame's angles, the mouse rotation is
      orthonormal, and so the accumulated rotation stays a rigid rotation: it never skews
      or scales the molecule. */
  lemma RotationStaysOrthonormal(rotation: Mat, dx: real, dy: real, rotZ: bool, scale: real,
                                 sin: real -> real, cos: real -> real)
    requires Orthonormal(rotation)
    requires sin(dx * scale) * sin(dx * scale) + cos(dx * scale) * cos(dx * scale) == 1.0
    requires sin(dy * scale) * sin(dy * scale) + cos(dy * scale) * cos(dy * scale) == 1.0
    ensures Orthonormal(Product(rotation, MouseRotation(dx, dy, rotZ, scale, sin, cos)))
  {
    RotationsOrthonormal(sin(dx * scale), cos(dx * scale));
    RotationsOrthonormal(sin(dy * scale), cos(dy * scale));
    if !rotZ {
      OrthonormalProduct(RotY(sin(dx * scale), cos(dx * scale)), RotX(sin(dy * scale), cos(dy * scale)));
    }
    OrthonormalProduct(rotation, MouseRotation(dx, dy, rotZ, scale, sin, cos));
  }

  /** The module-level view state. */
  class Viewer {
    var rotation: Matrix4
    var view: Matrix4
    var zoomLevel: real
    var mouse: MouseInfo

    ghost predicate Valid()
      reads this
    {
      rotation.Valid() && view.Valid()
    }

    /** The initial state: identity rotation and view, zoom level -3.7, no input. */
    constructor ()
      ensures Valid() && rotation.Value() == Unit() && view.Value() == Unit() && zoomLevel == InitialZoom
      ensures fresh(mouse) && !mouse.rotZ && mouse.prevPos == mouse.curPos && mouse.prevMwheel == mouse.curMwheel
    {
      var r := Matrix4.MakeUnit();
      var v := Matrix4.MakeUnit();
      var m := new MouseInfo();
      rotation, view, zoomLevel, mouse := r, v, InitialZoom, m;
    }

    /** `updateViewMatrix`: right-multiply the rotation by this frame's drag, add the
        wheel movement to the zoom, mark the input consumed, and rebuild the view matrix
        from the new rotation and zoom.  Both matrices are new objects; the old rotation's
        storage is not written. */
    method UpdateViewMatrix(width: real, height: real, sin: real -> real, cos: real -> real, exp: real -> real)
      requires Valid() && width > 0.0 && height > 0.0
      modifies this, mouse
      ensures Valid() && fresh(rotation) && fresh(view) && mouse == old(mouse)
      ensures rotation.Value() ==
        Product(old(rotation.Value()),
                MouseRotation(old(mouse.curPos.x - mouse.prevPos.x), old(mouse.curPos.y - mouse.prevPos.y),
                              old(mouse.rotZ), RotationScale(width, height), sin, cos))
      ensures zoomLevel == ZoomAfter(old(zoomLevel), old(mouse.prevMwheel), old(mouse.curMwheel))
      ensures view.Value() == ViewOf(rotation.Value(), zoomLevel, width, height, exp)
      ensures mouse.prevPos == mouse.curPos == old(mouse.curPos) && mouse.prevMwheel == mouse.curMwheel == old(mouse.curMwheel)
      ensures mouse.rotZ == old(mouse.rotZ)
    {
      var dx, dy := mouse.curPos.x - mouse.prevPos.x, mouse.curPos.y - mouse.prevPos.y;
      var newZoom := ZoomAfter(zoomLevel, mouse.prevMwheel, mouse.curMwheel);
      var newRotation, newView := NextMatrices(rotation, dx, dy, mouse.rotZ, newZoom, width, height, sin, cos, exp);
      ghost var turned, seen := newRotation.Value(), newView.Value();
      rotation, zoomLevel, view := newRotation, newZoom, newView;
      mouse.Consume();
      assert rotation.Value() == turned && view.Value() == seen;
    }
  }

  /** The two matrices one `updateViewMatrix` call builds, both fresh: the rotation
      after the frame's drag and the view matrix made from it. */
  method NextMatrices(rotation: Matrix4, dx: real, dy: real, rotZ: bool, zoom: real, width: real, height: real,
                      sin: real -> real, cos: real -> real, exp: real -> real)
    returns (newRotation: Matrix4, view: Matrix4)
    requires rotation.Valid() && width > 0.0 && height > 0.0
    ensures fresh(newRotation) && fresh(newRotation.data) && newRotation.Valid()
    ensures fresh(view) && view.Valid()
    ensures newRotation.Value() ==
      Product(old(rotation.Value()), MouseRotation(dx, dy, rotZ, RotationScale(width, height), sin, cos))
    ensures view.Value() == ViewOf(newRotation.Value(), zoom, width, height, exp)
  {
    var mouseRotation := MakeMouseRotation(dx, dy, rotZ, RotationScale(width, height), sin, cos);
    newRotation := rotation.Mul(mouseRotation);
    view := MakeView(newRotation, zoom, width, height, exp);
  }

  /** The matrix `updateViewMatrix` builds from one frame's drag. */
  method MakeMouseRotation(dx: real, dy: real, rotZ: bool, scale: real, sin: real -> real, cos: real -> real)
    returns (m: Matrix4)
    ensures fresh(m) && fresh(m.data) && m.Valid()
    ensures m.Value() == MouseRotation(dx, dy, rotZ, scale, sin, cos)
  {
    if rotZ {
      m := Matrix4.MakeRotZ(sin(dx * scale), cos(dx * scale));
    } else {
      var aboutY := Matrix4.MakeRotY(sin(dx * scale), cos(dx * scale));
      var aboutX := Matrix4.MakeRotX(sin(dy * scale), cos(dy * scale));
      m := aboutY.Mul(aboutX);
    }
  }

  /** The view matrix `updateViewMatrix` builds: a fresh unit matrix given the aspect
      ratio, then the rotation times it, scaled by exp(zoom). */
  method MakeView(rotation: Matrix4, zoom: real, width: real, height: real, exp: real -> real)
    returns (view: Matrix4)
    requires rotation.Valid() && width > 0.0 && height > 0.0
    ensures fresh(view) && view.Valid()
    ensures view.Value() == ViewOf(rotation.Value(), zoom, width, height, exp)
  {
    var aspectMatrix := Matrix4.MakeUnit();
    aspectMatrix := aspectMatrix.Aspect(width / height);
    var scale := exp(zoom);
    var product := rotation.Mul(aspectMatrix);
    view := product.Scale(scale);
  }
}
