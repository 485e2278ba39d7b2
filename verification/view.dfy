/**
  The view transform (zoom, pan, quarter-turn rotation, horizontal flip), the
  render transform it induces on canvas points, the brush's hand-written
  inverse of it, and the scaling of pointer positions into canvas pixels.
 */
module View {
  import opened Base

  datatype ViewTransform = ViewTransform(scale: real, offsetX: real, offsetY: real, rotation: int, flipped: bool)

  /** The transform after loading, resetting or cropping. */
  const Identity := ViewTransform(1.0, 0.0, 0.0, 0, false)

  const MinScale: real := 0.2
  const MaxScale: real := 4.0
  const ZoomStep: real := 0.1

  predicate ValidRotation(deg: int) {
    deg == 0 || deg == 90 || deg == 180 || deg == 270
  }

  /** The invariant the zoom clamps and the rotate button keep. */
  predicate ValidView(v: ViewTransform) {
    ValidRotation(v.rotation) && MinScale <= v.scale <= MaxScale
  }

  /** Cosine of a whole number of quarter turns, in degrees. */
  function Cos(deg: int): (c: real)
    ensures c == 1.0 || c == 0.0 || c == -1.0
  {
    var d := deg % 360;
    if d == 0 then 1.0 else if d == 180 then -1.0 else 0.0
  }

  /** Sine of a whole number of quarter turns, in degrees. */
  function Sin(deg: int): (s: real)
    ensures s == 1.0 || s == 0.0 || s == -1.0
  {
    var d := deg % 360;
    if d == 90 then 1.0 else if d == 270 then -1.0 else 0.0
  }

  /** The rotate button: a quarter turn clockwise on screen. */
  function Rotate(v: ViewTransform): (r: ViewTransform)
    ensures r == v.(rotation := r.rotation)
    ensures ValidRotation(v.rotation) ==> ValidRotation(r.rotation) && r.rotation != v.rotation
    ensures ValidRotation(v.rotation) ==>
              Cos(r.rotation) == -Sin(v.rotation) && Sin(r.rotation) == Cos(v.rotation)
  {
    v.(rotation := (v.rotation + 90) % 360)
  }

  /** Four quarter turns bring the view back. */
  lemma RotateFourTimes(v: ViewTransform)
    requires ValidRotation(v.rotation)
    ensures Rotate(Rotate(Rotate(Rotate(v)))) == v
  {
  }

  /** The flip button. */
  function Flip(v: ViewTransform): (r: ViewTransform)
    ensures r.flipped != v.flipped
    ensures r == v.(flipped := r.flipped)
  {
    v.(flipped := !v.flipped)
  }

  lemma FlipInvolution(v: ViewTransform)
    ensures Flip(Flip(v)) == v
  {
  }

  /** The zoom-in button: one step up, capped at the maximum scale. */
  function ZoomIn(v: ViewTransform): (r: ViewTransform)
    ensures r == v.(scale := r.scale)
    ensures v.scale + ZoomStep <= MaxScale ==> r.scale == v.scale + ZoomStep
    ensures v.scale + ZoomStep > MaxScale ==> r.scale == MaxScale
    ensures r.scale <= MaxScale
    ensures v.scale <= MaxScale ==> r.scale >= v.scale
    ensures ValidView(v) ==> ValidView(r)
  {
    v.(scale := Min(MaxScale, v.scale + ZoomStep))
  }

  /** The zoom-out button: one step down, floored at the minimum scale. */
  function ZoomOut(v: ViewTransform): (r: ViewTransform)
    ensures r == v.(scale := r.scale)
    ensures v.scale - ZoomStep >= MinScale ==> r.scale == v.scale - ZoomStep
    ensures v.scale - ZoomStep < MinScale ==> r.scale == MinScale
    ensures r.scale >= MinScale
    ensures v.scale >= MinScale ==> r.scale <= v.scale
    ensures ValidView(v) ==> ValidView(r)
  {
    v.(scale := Max(MinScale, v.scale - ZoomStep))
  }

  /** Away from the upper cap, zooming out undoes zooming in. */
  lemma ZoomOutUndoesZoomIn(v: ViewTransform)
    requires MinScale <= v.scale <= MaxScale - ZoomStep
    ensures ZoomOut(ZoomIn(v)) == v
  {
  }

  /** Moves the view by a pointer delta. */
  function Pan(v: ViewTransform, dx: real, dy: real): (r: ViewTransform)
    ensures r == v.(offsetX := r.offsetX, offsetY := r.offsetY)
    ensures r.offsetX - v.offsetX == dx && r.offsetY - v.offsetY == dy
  {
    v.(offsetX := v.offsetX + dx, offsetY := v.offsetY + dy)
  }

  /** The horizontal scale: the scale times -1 when flipped, times 1 otherwise. */
  function SignedScale(v: ViewTransform): real {
    if v.flipped then -v.scale else v.scale
  }

  function Sq(a: real): real { a * a }

  /** Moves a point by `(dx, dy)`. */
  function Shift(p: Point, dx: real, dy: real): Point {
    Point(p.x + dx, p.y + dy)
  }

  /**
    Rotates a point about the origin by `n` quarter turns, in the canvas's
    sense of rotation (x towards y).
   */
  function Turn(p: Point, n: int): Point {
    var r := n % 4;
    if r == 0 then p
    else if r == 1 then Point(-p.y, p.x)
    else if r == 2 then Point(-p.x, -p.y)
    else Point(p.y, -p.x)
  }

  /** Rotates a point about the origin by `n` quarter turns the other way. */
  function TurnBack(p: Point, n: int): Point {
    var r := n % 4;
    if r == 0 then p
    else if r == 1 then Point(p.y, -p.x)
    else if r == 2 then Point(-p.x, -p.y)
    else Point(-p.y, p.x)
  }

  /** Scales a point by `kx` horizontally and `ky` vertically. */
  function Stretch(p: Point, kx: real, ky: real): Point {
    Point(kx * p.x, ky * p.y)
  }

  /** Divides a point by `kx` horizontally and `ky` vertically. */
  function Shrink(p: Point, kx: real, ky: real): Point
    requires kx != 0.0 && ky != 0.0
  {
    Point(p.x / kx, p.y / ky)
  }

  /** Squared distance from the origin. */
  function Norm(p: Point): real {
    Sq(p.x) + Sq(p.y)
  }

  /** The quarter turns are the rotations by the angle whose cosine and sine the table gives. */
  lemma TurnTable(p: Point, deg: int)
    requires ValidRotation(deg)
    ensures Turn(p, deg / 90) == Point(Cos(deg) * p.x - Sin(deg) * p.y, Sin(deg) * p.x + Cos(deg) * p.y)
    ensures TurnBack(p, deg / 90) == Point(Cos(deg) * p.x + Sin(deg) * p.y, Cos(deg) * p.y - Sin(deg) * p.x)
  {
  }

  lemma ShiftCancel(p: Point, dx: real, dy: real, ex: real, ey: real)
    requires dx + ex == 0.0 && dy + ey == 0.0
    ensures Shift(Shift(p, dx, dy), ex, ey) == p
  {
  }

  lemma DivCancel(a: real, k: real)
    requires k != 0.0
    ensures (k * a) / k == a
    ensures k * (a / k) == a
  {
  }

  lemma StretchCancels(p: Point, kx: real, ky: real)
    requires kx != 0.0 && ky != 0.0
    ensures Shrink(Stretch(p, kx, ky), kx, ky) == p
    ensures Stretch(Shrink(p, kx, ky), kx, ky) == p
  {
    DivCancel(p.x, kx);
    DivCancel(p.y, ky);
  }

  /** Turning back undoes a turn, and the other way round. */
  lemma TurnCancels(p: Point, n: int)
    ensures TurnBack(Turn(p, n), n) == p
    ensures Turn(TurnBack(p, n), n) == p
  {
  }

  /** A turn preserves squared length. */
  lemma TurnKeepsNorm(p: Point, n: int)
    ensures Norm(Turn(p, n)) == Norm(p)
  {
    assert Sq(-p.x) == Sq(p.x) && Sq(-p.y) == Sq(p.y);
  }

  /** A stretch by the same factor up to sign scales squared length by the factor squared. */
  lemma StretchNorm(p: Point, kx: real, ky: real)
    requires kx == ky || kx == -ky
    ensures Norm(Stretch(p, kx, ky)) == Sq(ky) * Norm(p)
  {
    assert Sq(kx * p.x) == Sq(kx) * Sq(p.x);
    assert Sq(ky * p.y) == Sq(ky) * Sq(p.y);
    assert Sq(kx) == Sq(ky);
  }

  /**
    The render transform over plain numbers: move the centre `(cx, cy)` to
    the origin, turn by `n` quarter turns, stretch by `kx` and `ky`, and move
    the origin to the centre plus the offset `(ox, oy)`.
   */
  function RenderSteps(p: Point, n: int, kx: real, ky: real, cx: real, cy: real, ox: real, oy: real): Point {
    Shift(Stretch(Turn(Shift(p, -cx, -cy), n), kx, ky), cx + ox, cy + oy)
  }

  /**
    Where the renderer draws a canvas point: translate to the canvas centre
    plus the offset, scale (negatively in x when flipped), rotate, translate
    back by the centre; applied to a point, innermost first.
   */
  function RenderPoint(v: ViewTransform, width: nat, height: nat, p: Point): Point {
    RenderSteps(p, v.rotation / 90, SignedScale(v), v.scale,
                width as real / 2.0, height as real / 2.0, v.offsetX, v.offsetY)
  }

  /** The render transform sends the canvas centre to the centre moved by the pan offset. */
  lemma RenderCentre(v: ViewTransform, width: nat, height: nat)
    ensures RenderPoint(v, width, height, Point(width as real / 2.0, height as real / 2.0))
            == Point(width as real / 2.0 + v.offsetX, height as real / 2.0 + v.offsetY)
  {
    var cx := width as real / 2.0;
    var cy := height as real / 2.0;
    var origin := Point(0.0, 0.0);
    assert Shift(Point(cx, cy), -cx, -cy) == origin;
    assert Turn(origin, v.rotation / 90) == origin;
    assert Stretch(origin, SignedScale(v), v.scale) == origin;
  }

  /**
    `q`'s squared distance from the centre `(cx, cy)` moved by `(ox, oy)` is
    `k` squared times `p`'s squared distance from `(cx, cy)`.
   */
  predicate ScaledAway(p: Point, q: Point, cx: real, cy: real, ox: real, oy: real, k: real) {
    Norm(Shift(q, -cx - ox, -cy - oy)) == Sq(k) * Norm(Shift(p, -cx, -cy))
  }

  /** The render steps scale distances from the centre by `ky` when `kx` is `ky` up to sign. */
  lemma RenderStepsScale(p: Point, n: int, kx: real, ky: real, cx: real, cy: real, ox: real, oy: real)
    requires kx == ky || kx == -ky
    ensures ScaledAway(p, RenderSteps(p, n, kx, ky, cx, cy, ox, oy), cx, cy, ox, oy, ky)
  {
    var centred := Shift(p, -cx, -cy);
    var turned := Turn(centred, n);
    var scaled := Stretch(turned, kx, ky);
    ShiftCancel(scaled, cx + ox, cy + oy, -cx - ox, -cy - oy);
    TurnKeepsNorm(centred, n);
    StretchNorm(turned, kx, ky);
  }

  /**
    Rotation and flip preserve lengths: a point's squared distance from the
    canvas centre, once rendered, is measured from the centre moved by the
    offset and grows by exactly the square of the scale.
   */
  lemma RenderScalesDistances(v: ViewTransform, width: nat, height: nat, p: Point)
    ensures ScaledAway(p, RenderPoint(v, width, height, p), width as real / 2.0, height as real / 2.0,
                       v.offsetX, v.offsetY, v.scale)
  {
    SignedScaleFacts(v);
    RenderStepsScale(p, v.rotation / 90, SignedScale(v), v.scale,
                     width as real / 2.0, height as real / 2.0, v.offsetX, v.offsetY);
  }

  /**
    Rotates a point about the origin by the angle whose cosine and sine are
    `c` and `s`, as the brush handler writes its rotation out.
   */
  function RotateBy(p: Point, c: real, s: real): Point {
    Point(p.x * c - p.y * s, p.x * s + p.y * c)
  }

  /**
    The brush's inverse over plain numbers: subtract the centre, rotate by
    `(c, s)`, divide by `kx` and `ky`, subtract the offset and add the centre back.
   */
  function BrushSteps(p: Point, c: real, s: real, kx: real, ky: real, cx: real, cy: real, ox: real, oy: real): Point
    requires kx != 0.0 && ky != 0.0
  {
    var d := Shift(p, -cx, -cy);
    var r := RotateBy(d, c, s);
    var m := Shrink(r, kx, ky);
    Point(m.x - ox + cx, m.y - oy + cy)
  }

  /**
    The brush's mapping from a canvas pointer position to a foreground pixel:
    rotate back by the cosine and sine of the negated angle, and divide by the
    signed scale.
   */
  function BrushToImage(v: ViewTransform, width: nat, height: nat, p: Point): Point
    requires v.scale > 0.0
  {
    BrushSteps(p, Cos(-v.rotation), Sin(-v.rotation), SignedScale(v), v.scale,
               width as real / 2.0, height as real / 2.0, v.offsetX, v.offsetY)
  }

  /**
    The exact inverse of the render steps: remove the centre and the offset,
    divide by the stretch, turn back and restore the centre.
   */
  function InverseSteps(q: Point, n: int, kx: real, ky: real, cx: real, cy: real, ox: real, oy: real): Point
    requires kx != 0.0 && ky != 0.0
  {
    Shift(TurnBack(Shrink(Shift(q, -cx - ox, -cy - oy), kx, ky), n), cx, cy)
  }

  /** The exact inverse of `RenderPoint`. */
  function ScreenToImage(v: ViewTransform, width: nat, height: nat, q: Point): Point
    requires v.scale > 0.0
  {
    InverseSteps(q, v.rotation / 90, SignedScale(v), v.scale,
                 width as real / 2.0, height as real / 2.0, v.offsetX, v.offsetY)
  }

  /** The inverse steps undo the render steps. */
  lemma StepsInvertRender(p: Point, n: int, kx: real, ky: real, cx: real, cy: real, ox: real, oy: real)
    requires kx != 0.0 && ky != 0.0
    ensures InverseSteps(RenderSteps(p, n, kx, ky, cx, cy, ox, oy), n, kx, ky, cx, cy, ox, oy) == p
  {
    var centred := Shift(p, -cx, -cy);
    var turned := Turn(centred, n);
    var scaled := Stretch(turned, kx, ky);
    ShiftCancel(scaled, cx + ox, cy + oy, -cx - ox, -cy - oy);
    StretchCancels(turned, kx, ky);
    TurnCancels(centred, n);
    ShiftCancel(p, -cx, -cy, cx, cy);
  }

  /** The render steps undo the inverse steps. */
  lemma StepsInvertScreen(q: Point, n: int, kx: real, ky: real, cx: real, cy: real, ox: real, oy: real)
    requires kx != 0.0 && ky != 0.0
    ensures RenderSteps(InverseSteps(q, n, kx, ky, cx, cy, ox, oy), n, kx, ky, cx, cy, ox, oy) == q
  {
    var unplaced := Shift(q, -cx - ox, -cy - oy);
    var unscaled := Shrink(unplaced, kx, ky);
    var unturned := TurnBack(unscaled, n);
    ShiftCancel(unturned, cx, cy, -cx, -cy);
    TurnCancels(unscaled, n);
    StretchCancels(unplaced, kx, ky);
    ShiftCancel(q, -cx - ox, -cy - oy, cx + ox, cy + oy);
  }

  /**
    The signed horizontal scale is the scale up to sign, the scale itself
    when unflipped, and non-zero when the scale is positive.
   */
  lemma SignedScaleFacts(v: ViewTransform)
    ensures SignedScale(v) == v.scale || SignedScale(v) == -v.scale
    ensures !v.flipped ==> SignedScale(v) == v.scale
    ensures v.flipped ==> SignedScale(v) == -v.scale
    ensures v.scale > 0.0 ==> SignedScale(v) != 0.0
  {
  }

  /** `ScreenToImage` undoes `RenderPoint`. */
  lemma ScreenToImageInvertsRender(v: ViewTransform, width: nat, height: nat, p: Point)
    requires v.scale > 0.0
    ensures ScreenToImage(v, width, height, RenderPoint(v, width, height, p)) == p
  {
    SignedScaleFacts(v);
    StepsInvertRender(p, v.rotation / 90, SignedScale(v), v.scale,
                      width as real / 2.0, height as real / 2.0, v.offsetX, v.offsetY);
  }

  /** `RenderPoint` undoes `ScreenToImage`: together they are a bijection of the plane. */
  lemma RenderInvertsScreenToImage(v: ViewTransform, width: nat, height: nat, q: Point)
    requires v.scale > 0.0
    ensures RenderPoint(v, width, height, ScreenToImage(v, width, height, q)) == q
  {
    SignedScaleFacts(v);
    StepsInvertScreen(q, v.rotation / 90, SignedScale(v), v.scale,
                      width as real / 2.0, height as real / 2.0, v.offsetX, v.offsetY);
  }

  /** Rotating by the negated angle of the table is turning back. */
  lemma RotateByTable(p: Point, deg: int)
    requires ValidRotation(deg)
    ensures RotateBy(p, Cos(-deg), Sin(-deg)) == TurnBack(p, deg / 90)
  {
    if deg == 0 {
      assert Cos(-deg) == 1.0 && Sin(-deg) == 0.0;
    } else if deg == 90 {
      assert -deg == 270 - 360;
      assert Cos(-deg) == 0.0 && Sin(-deg) == -1.0;
    } else if deg == 180 {
      assert -deg == 180 - 360;
      assert Cos(-deg) == -1.0 && Sin(-deg) == 0.0;
    } else {
      assert -deg == 90 - 360;
      assert Cos(-deg) == 0.0 && Sin(-deg) == 1.0;
    }
  }

  /**
    Dividing by the scales commutes with a turn back when both axes share the
    scale, or when the horizontal one is its negation and the turn is a half
    turn or none.
   */
  lemma ShrinkTurnBack(p: Point, n: int, kx: real, ky: real)
    requires kx != 0.0 && ky != 0.0
    requires kx == ky || (kx == -ky && n % 2 == 0)
    ensures Shrink(TurnBack(p, n), kx, ky) == TurnBack(Shrink(p, kx, ky), n)
  {
    NegDiv(p.x, kx);
    NegDiv(p.y, ky);
    NegDiv(p.x, ky);
    NegDiv(p.y, kx);
  }

  lemma NegDiv(a: real, k: real)
    requires k != 0.0
    ensures (-a) / k == -(a / k)
  {
  }

  /**
    Without offsets, the brush steps with the table's negated angle are the
    inverse steps whenever the flip commutes with the turn.
   */
  lemma BrushStepsAgree(q: Point, deg: int, kx: real, ky: real, cx: real, cy: real, ox: real, oy: real)
    requires ValidRotation(deg) && kx != 0.0 && ky != 0.0
    requires kx == ky || (kx == -ky && (deg == 0 || deg == 180))
    requires ox == 0.0 && oy == 0.0
    ensures BrushSteps(q, Cos(-deg), Sin(-deg), kx, ky, cx, cy, ox, oy)
            == InverseSteps(q, deg / 90, kx, ky, cx, cy, ox, oy)
  {
    var n := deg / 90;
    assert kx == ky || (kx == -ky && n % 2 == 0);
    var d := Shift(q, -cx, -cy);
    assert Shift(q, -cx - ox, -cy - oy) == d;
    RotateByTable(d, deg);
    ShrinkTurnBack(d, n, kx, ky);
    var m := Shrink(TurnBack(d, n), kx, ky);
    assert BrushSteps(q, Cos(-deg), Sin(-deg), kx, ky, cx, cy, ox, oy) == Point(m.x - ox + cx, m.y - oy + cy);
    assert InverseSteps(q, n, kx, ky, cx, cy, ox, oy) == Shift(m, cx, cy);
  }

  /**
    With zero offsets the brush mapping is the exact inverse whenever the
    flip commutes with the rotation: unflipped, or a rotation of 0 or 180.
   */
  lemma BrushAgreesWithInverse(v: ViewTransform, width: nat, height: nat, q: Point)
    requires ValidRotation(v.rotation) && v.scale > 0.0
    requires v.offsetX == 0.0 && v.offsetY == 0.0
    requires !v.flipped || v.rotation == 0 || v.rotation == 180
    ensures BrushToImage(v, width, height, q) == ScreenToImage(v, width, height, q)
  {
    if !v.flipped {
      BrushAgreesUnflipped(v, width, height, q);
    } else {
      BrushAgreesHalfTurns(v, width, height, q);
    }
  }

  /** The unflipped case: the signed scale is the scale itself. */
  lemma BrushAgreesUnflipped(v: ViewTransform, width: nat, height: nat, q: Point)
    requires ValidRotation(v.rotation) && v.scale > 0.0
    requires v.offsetX == 0.0 && v.offsetY == 0.0
    requires !v.flipped
    ensures BrushToImage(v, width, height, q) == ScreenToImage(v, width, height, q)
  {
    SignedScaleFacts(v);
    BrushStepsAgree(q, v.rotation, SignedScale(v), v.scale, width as real / 2.0, height as real / 2.0, v.offsetX, v.offsetY);
    BrushToImageIsSteps(v, width, height, q);
    ScreenToImageIsSteps(v, width, height, q);
  }

  /** The flipped case at 0 or 180 degrees: the signed scale is the negated scale. */
  lemma BrushAgreesHalfTurns(v: ViewTransform, width: nat, height: nat, q: Point)
    requires v.scale > 0.0
    requires v.offsetX == 0.0 && v.offsetY == 0.0
    requires v.flipped && (v.rotation == 0 || v.rotation == 180)
    ensures BrushToImage(v, width, height, q) == ScreenToImage(v, width, height, q)
  {
    SignedScaleFacts(v);
    BrushStepsAgree(q, v.rotation, SignedScale(v), v.scale, width as real / 2.0, height as real / 2.0, v.offsetX, v.offsetY);
    BrushToImageIsSteps(v, width, height, q);
    ScreenToImageIsSteps(v, width, height, q);
  }

  /** The brush steps send the centre to the centre moved back by the offset. */
  lemma BrushCentreSteps(c: real, s: real, kx: real, ky: real, cx: real, cy: real, ox: real, oy: real)
    requires kx != 0.0 && ky != 0.0
    ensures BrushSteps(Point(cx, cy), c, s, kx, ky, cx, cy, ox, oy) == Point(cx - ox, cy - oy)
  {
    var origin := Point(0.0, 0.0);
    assert Shift(Point(cx, cy), -cx, -cy) == origin;
    assert RotateBy(origin, c, s) == origin;
    assert Shrink(origin, kx, ky) == origin;
  }

  /** The brush mapping sends the canvas centre to the centre moved back by the pan offset. */
  lemma BrushCentre(v: ViewTransform, width: nat, height: nat)
    requires v.scale > 0.0
    ensures BrushToImage(v, width, height, Point(width as real / 2.0, height as real / 2.0))
            == Point(width as real / 2.0 - v.offsetX, height as real / 2.0 - v.offsetY)
  {
    BrushToImageIsSteps(v, width, height, Point(width as real / 2.0, height as real / 2.0));
    BrushCentreSteps(Cos(-v.rotation), Sin(-v.rotation), SignedScale(v), v.scale,
                     width as real / 2.0, height as real / 2.0, v.offsetX, v.offsetY);
  }

  /** `ScreenToImage` unfolded to its steps; kept apart so that callers see no arithmetic. */
  lemma ScreenToImageIsSteps(v: ViewTransform, width: nat, height: nat, q: Point)
    requires v.scale > 0.0
    ensures SignedScale(v) != 0.0
    ensures ScreenToImage(v, width, height, q)
            == InverseSteps(q, v.rotation / 90, SignedScale(v), v.scale,
                            width as real / 2.0, height as real / 2.0, v.offsetX, v.offsetY)
  {
  }

  /** `BrushToImage` unfolded to its steps; kept apart so that callers see no arithmetic. */
  lemma BrushToImageIsSteps(v: ViewTransform, width: nat, height: nat, p: Point)
    requires v.scale > 0.0
    ensures SignedScale(v) != 0.0
    ensures BrushToImage(v, width, height, p)
            == BrushSteps(p, Cos(-v.rotation), Sin(-v.rotation), SignedScale(v), v.scale,
                          width as real / 2.0, height as real / 2.0, v.offsetX, v.offsetY)
  {
  }

  /** Hence, in those cases, the brush lands on the pixel drawn under the pointer. */
  lemma BrushInvertsRender(v: ViewTransform, width: nat, height: nat, p: Point)
    requires ValidRotation(v.rotation) && v.scale > 0.0
    requires v.offsetX == 0.0 && v.offsetY == 0.0
    requires !v.flipped || v.rotation == 0 || v.rotation == 180
    ensures BrushToImage(v, width, height, RenderPoint(v, width, height, p)) == p
  {
    BrushAgreesWithInverse(v, width, height, RenderPoint(v, width, height, p));
    ScreenToImageInvertsRender(v, width, height, p);
  }

  /**
    A pan alone does not make the brush miss: at scale 1, with no rotation
    and no flip, both maps subtract the offset.
   */
  lemma PannedIdentityAgrees(ox: real, oy: real, width: nat, height: nat, q: Point)
    ensures var v := ViewTransform(1.0, ox, oy, 0, false);
            BrushToImage(v, width, height, q) == ScreenToImage(v, width, height, q)
  {
    var v := ViewTransform(1.0, ox, oy, 0, false);
    BrushToImageIsSteps(v, width, height, q);
    ScreenToImageIsSteps(v, width, height, q);
    assert Cos(-0) == 1.0 && Sin(-0) == 0.0;
    assert SignedScale(v) == 1.0;
  }

  /**
    The brush subtracts the pan offset after dividing by the signed scale,
    while the render adds it after scaling and turning, so once the view is
    also zoomed, turned or flipped a pan makes the brush miss. So does a flip
    at a quarter turn, even without a pan. Three concrete points: a panned
    view at zoom 2, a flipped, unpanned view at 90 degrees, and a flipped,
    panned view at scale 1 and no rotation.
   */
  lemma BrushCanMiss()
    ensures var v := ViewTransform(2.0, 10.0, 0.0, 0, false);
            BrushToImage(v, 100, 100, RenderPoint(v, 100, 100, Point(60.0, 70.0))) == Point(55.0, 70.0)
    ensures var v := ViewTransform(1.0, 0.0, 0.0, 90, true);
            BrushToImage(v, 100, 100, RenderPoint(v, 100, 100, Point(60.0, 70.0))) == Point(40.0, 30.0)
    ensures var v := ViewTransform(1.0, 10.0, 0.0, 0, true);
            BrushToImage(v, 100, 100, RenderPoint(v, 100, 100, Point(90.0, 30.0))) == Point(70.0, 30.0)
  {
    var zoomed := ViewTransform(2.0, 10.0, 0.0, 0, false);
    assert Turn(Point(10.0, 20.0), 0) == Point(10.0, 20.0);
    assert Stretch(Point(10.0, 20.0), 2.0, 2.0) == Point(20.0, 40.0);
    assert RenderPoint(zoomed, 100, 100, Point(60.0, 70.0)) == Point(80.0, 90.0);
    assert Cos(-0) == 1.0 && Sin(-0) == 0.0;
    assert RotateBy(Point(30.0, 40.0), 1.0, 0.0) == Point(30.0, 40.0);
    assert Shrink(Point(30.0, 40.0), 2.0, 2.0) == Point(15.0, 20.0);
    var mirrored := ViewTransform(1.0, 0.0, 0.0, 90, true);
    assert Turn(Point(10.0, 20.0), 1) == Point(-20.0, 10.0);
    assert Stretch(Point(-20.0, 10.0), -1.0, 1.0) == Point(20.0, 10.0);
    assert RenderPoint(mirrored, 100, 100, Point(60.0, 70.0)) == Point(70.0, 60.0);
    assert -90 == 270 - 360;
    assert Cos(-90) == 0.0 && Sin(-90) == -1.0;
    assert RotateBy(Point(20.0, 10.0), 0.0, -1.0) == Point(10.0, -20.0);
    assert Shrink(Point(10.0, -20.0), -1.0, 1.0) == Point(-10.0, -20.0);
    var panned := ViewTransform(1.0, 10.0, 0.0, 0, true);
    assert SignedScale(panned) == -1.0;
    assert Turn(Point(40.0, -20.0), 0) == Point(40.0, -20.0);
    assert Stretch(Point(40.0, -20.0), -1.0, 1.0) == Point(-40.0, -20.0);
    assert RenderPoint(panned, 100, 100, Point(90.0, 30.0)) == Point(20.0, 30.0);
    assert RotateBy(Point(-30.0, -20.0), 1.0, 0.0) == Point(-30.0, -20.0);
    assert Shrink(Point(-30.0, -20.0), -1.0, 1.0) == Point(30.0, -20.0);
  }

  /** The element's on-screen box, as `getBoundingClientRect` reports it. */
  datatype ClientRect = ClientRect(left: real, top: real, width: real, height: real)

  /** Scales a pointer's client position into canvas pixels. */
  function PointerPos(clientX: real, clientY: real, box: ClientRect, canvasWidth: nat, canvasHeight: nat): (p: Point)
    requires box.width > 0.0 && box.height > 0.0
    ensures p.x * box.width == (clientX - box.left) * canvasWidth as real
    ensures p.y * box.height == (clientY - box.top) * canvasHeight as real
  {
    Point((clientX - box.left) * (canvasWidth as real / box.width),
          (clientY - box.top) * (canvasHeight as real / box.height))
  }

  /** The element's edges map to the canvas edges. */
  lemma PointerPosEdges(box: ClientRect, canvasWidth: nat, canvasHeight: nat)
    requires box.width > 0.0 && box.height > 0.0
    ensures PointerPos(box.left, box.top, box, canvasWidth, canvasHeight) == Point(0.0, 0.0)
    ensures PointerPos(box.left + box.width, box.top + box.height, box, canvasWidth, canvasHeight)
            == Point(canvasWidth as real, canvasHeight as real)
  {
    DivCancel(canvasWidth as real, box.width);
    DivCancel(canvasHeight as real, box.height);
  }

  /** A canvas displayed at its natural size: pointer positions are offsets from its corner. */
  lemma PointerPosNaturalSize(clientX: real, clientY: real, box: ClientRect, canvasWidth: nat, canvasHeight: nat)
    requires canvasWidth > 0 && canvasHeight > 0
    requires box.width == canvasWidth as real && box.height == canvasHeight as real
    ensures PointerPos(clientX, clientY, box, canvasWidth, canvasHeight) == Point(clientX - box.left, clientY - box.top)
  {
    assert canvasWidth as real / box.width == 1.0;
    assert canvasHeight as real / box.height == 1.0;
  }
}
