/** The camera of src/camera.rs: a record of input fields (aspect ratio,
    image width, focal length, viewport height, position, optional stretch)
    and of fields derived from them by `update`, which every setter calls
    after writing its own input field.

    Integer fields are `i32` in the source; the model keeps them as `int`
    and requires the image width to lie in `1..=i32::MAX` and the aspect
    ratio to be positive, the values the program's set-up passes, so that
    the `as i32` cast of `update` applies to a non-negative quotient. */
module Cameras {
  import opened Vectors

  const I32_MAX: int := 0x7fff_ffff

  /** `Stretch(f64, f64)`: horizontal and vertical scale of the pixel grid. */
  datatype Stretch = Stretch(su: real, sv: real)

  datatype Option<T> = None | Some(value: T)

  /** `x as i32` for a non-negative finite `x`: truncation toward zero, which
      is the floor here, saturating at `i32::MAX`. */
  function CastToI32(x: real): (n: int)
    requires x >= 0.0
    ensures 0 <= n <= I32_MAX
  {
    if x.Floor > I32_MAX then I32_MAX else x.Floor
  }

  /** The cast is the floor of `x` below `i32::MAX + 1` and `i32::MAX` above. */
  lemma CastToI32IsFloor(x: real)
    requires x >= 0.0
    ensures x < I32_MAX as real + 1.0 ==> CastToI32(x) as real <= x < CastToI32(x) as real + 1.0
    ensures x >= I32_MAX as real + 1.0 ==> CastToI32(x) == I32_MAX
  {
  }

  /** The image height `update` computes: `width / aspect` cast to `i32`,
      raised to 1 when it is smaller. */
  function ImageHeightFor(width: int, aspect: real): (h: int)
    requires width >= 1 && aspect > 0.0
    ensures 1 <= h <= I32_MAX
  {
    var truncated := CastToI32(width as real / aspect);
    if truncated < 1 then 1 else truncated
  }

  /** The image height is 1 for a quotient `width / aspect` below 1, the
      floor of the quotient from 1 up to `i32::MAX + 1`, and `i32::MAX`
      beyond. */
  lemma ImageHeightIsClampedFloor(width: int, aspect: real)
    requires width >= 1 && aspect > 0.0
    ensures width as real / aspect < 1.0 ==> ImageHeightFor(width, aspect) == 1
    ensures 1.0 <= width as real / aspect < I32_MAX as real + 1.0
            ==> ImageHeightFor(width, aspect) as real <= width as real / aspect
                < ImageHeightFor(width, aspect) as real + 1.0
    ensures width as real / aspect >= I32_MAX as real + 1.0 ==> ImageHeightFor(width, aspect) == I32_MAX
  {
    CastToI32IsFloor(width as real / aspect);
  }

  /** The viewport width: the viewport height times the image's aspect
      `width / height` in pixels. */
  function ViewportWidthFor(viewportHeight: real, width: int, height: int): real
    requires height >= 1
  {
    viewportHeight * (width as real / height as real)
  }

  /** The horizontal pixel step: `viewport_u / W`, times `su` under a stretch. */
  function DeltaU(u: Vec3, width: int, stretch: Option<Stretch>): Vec3
    requires width >= 1
  {
    match stretch
    case None => Div(u, width as real)
    case Some(s) => MulScalar(Div(u, width as real), s.su)
  }

  /** The vertical pixel step: `viewport_v / H`, times `sv` under a stretch. */
  function DeltaV(v: Vec3, height: int, stretch: Option<Stretch>): Vec3
    requires height >= 1
  {
    match stretch
    case None => Div(v, height as real)
    case Some(s) => MulScalar(Div(v, height as real), s.sv)
  }

  /** The upper-left corner of the viewport as `Camera::new` places it:
      `pos - (0, 0, f) - u / 2 - v / 2`. */
  function UpperLeft(pos: Vec3, focal: real, u: Vec3, v: Vec3): Vec3 {
    Sub(Sub(Sub(pos, Vec3(0.0, 0.0, focal)), Div(u, 2.0)), Div(v, 2.0))
  }

  /** The upper-left corner of the viewport with both half-spans scaled by
      the stretch: `pos - (0, 0, f) - u * su / 2 - v * sv / 2`. */
  function StretchedUpperLeft(pos: Vec3, focal: real, u: Vec3, v: Vec3, s: Stretch): Vec3 {
    Sub(Sub(Sub(pos, Vec3(0.0, 0.0, focal)), Div(MulScalar(u, s.su), 2.0)), Div(MulScalar(v, s.sv), 2.0))
  }

  /** The centre of pixel (0, 0): half a step from the corner in each
      direction. */
  function Pixel00(upperLeft: Vec3, du: Vec3, dv: Vec3): Vec3 {
    Add(upperLeft, ScalarMul(0.5, Add(du, dv)))
  }

  // ---------------------------------------------------------------------
  // The default camera of `Camera::new`, evaluated step by step.

  /** 400 pixels at 16:9 give 225 rows. */
  lemma DefaultHeight()
    ensures ImageHeightFor(400, 16.0 / 9.0) == 225
  {
    ImageHeightIsClampedFloor(400, 16.0 / 9.0);
  }

  /** A viewport of height 2 over a 400 x 225 image is 32/9 wide. */
  lemma DefaultViewportWidth()
    ensures ViewportWidthFor(2.0, 400, 225) == 32.0 / 9.0
  {
  }

  /** The default pixel steps are 1/112.5 across and 1/112.5 down. */
  lemma DefaultStepU()
    ensures DeltaU(Vec3(32.0 / 9.0, 0.0, 0.0), 400, None) == Vec3(1.0 / 112.5, 0.0, 0.0)
  {
  }

  lemma DefaultStepV()
    ensures DeltaV(Vec3(0.0, -2.0, 0.0), 225, None) == Vec3(0.0, -1.0 / 112.5, 0.0)
  {
  }

  lemma HalfViewportU()
    ensures Div(Vec3(32.0 / 9.0, 0.0, 0.0), 2.0) == Vec3(16.0 / 9.0, 0.0, 0.0)
  {
  }

  lemma HalfViewportV()
    ensures Div(Vec3(0.0, -2.0, 0.0), 2.0) == Vec3(0.0, -1.0, 0.0)
  {
  }

  lemma DefaultAhead()
    ensures Sub(Vec3(0.0, 0.0, 0.0), Vec3(0.0, 0.0, 1.0)) == Vec3(0.0, 0.0, -1.0)
  {
  }

  lemma DefaultCorner()
    ensures Sub(Sub(Vec3(0.0, 0.0, -1.0), Vec3(16.0 / 9.0, 0.0, 0.0)), Vec3(0.0, -1.0, 0.0))
         == Vec3(-16.0 / 9.0, 1.0, -1.0)
  {
    assert Sub(Vec3(0.0, 0.0, -1.0), Vec3(16.0 / 9.0, 0.0, 0.0)) == Vec3(-16.0 / 9.0, 0.0, -1.0);
  }

  /** The default upper-left corner lies half the viewport to the left and
      up from the point one unit in front of the origin. */
  lemma DefaultUpperLeft()
    ensures UpperLeft(Vec3(0.0, 0.0, 0.0), 1.0, Vec3(32.0 / 9.0, 0.0, 0.0), Vec3(0.0, -2.0, 0.0))
         == Vec3(-16.0 / 9.0, 1.0, -1.0)
  {
    HalfViewportU();
    HalfViewportV();
    DefaultAhead();
    DefaultCorner();
  }

  class Camera {
    var aspectRatio: real
    var imageWidth: int
    var imageHeight: int

    var focalLength: real
    var viewportHeight: real
    var viewportWidth: real
    var cameraPos: Vec3

    var viewportU: Vec3
    var viewportV: Vec3

    var pixelDeltaU: Vec3
    var pixelDeltaV: Vec3

    /** `vieport_upper_left` in the source. */
    var viewportUpperLeft: Vec3
    var pixel00Loc: Vec3

    var stretch: Option<Stretch>

    /** The inputs `update` can work with. */
    ghost predicate InputsValid()
      reads this
    {
      1 <= imageWidth <= I32_MAX && aspectRatio > 0.0
    }

    /** Every derived field is what `update` computes from the input fields;
        `anchor` is the upper-left corner as it was before, which `update`
        keeps when there is no stretch. */
    ghost predicate DerivedFrom(anchor: Vec3)
      reads this
    {
      && InputsValid()
      && imageHeight == ImageHeightFor(imageWidth, aspectRatio)
      && viewportWidth == ViewportWidthFor(viewportHeight, imageWidth, imageHeight)
      && viewportU == Vec3(viewportWidth, 0.0, 0.0)
      && viewportV == Vec3(0.0, -viewportHeight, 0.0)
      && pixelDeltaU == DeltaU(viewportU, imageWidth, stretch)
      && pixelDeltaV == DeltaV(viewportV, imageHeight, stretch)
      && viewportUpperLeft == (match stretch
                               case None => anchor
                               case Some(s) => StretchedUpperLeft(cameraPos, focalLength, viewportU, viewportV, s))
      && pixel00Loc == Pixel00(viewportUpperLeft, pixelDeltaU, pixelDeltaV)
    }

    /** The class invariant: the derived fields agree with the inputs. */
    ghost predicate Valid()
      reads this
    {
      DerivedFrom(viewportUpperLeft)
    }

    /** `Camera::new`: a 400-pixel-wide 16:9 image (225 rows), focal length
        1, viewport height 2, at the origin, with no stretch. Each derived
        field is set to the value its formula takes at these inputs;
        `DefaultsValid` shows that they are those of `update` and that the
        upper-left corner is the value `UpperLeft` takes at them. */
    constructor()
      ensures Valid()
      ensures aspectRatio == 16.0 / 9.0 && imageWidth == 400
      ensures focalLength == 1.0 && viewportHeight == 2.0
      ensures cameraPos == Vec3(0.0, 0.0, 0.0) && stretch == None
      ensures viewportUpperLeft == Vec3(-16.0 / 9.0, 1.0, -1.0)
      ensures imageHeight == 225
      ensures viewportWidth == 32.0 / 9.0
      ensures pixelDeltaU == Vec3(1.0 / 112.5, 0.0, 0.0) && pixelDeltaV == Vec3(0.0, -1.0 / 112.5, 0.0)
    {
      aspectRatio, imageWidth, focalLength, viewportHeight := 16.0 / 9.0, 400, 1.0, 2.0;
      cameraPos, stretch := Vec3(0.0, 0.0, 0.0), None;
      imageHeight, viewportWidth := 225, 32.0 / 9.0;
      viewportU, viewportV := Vec3(32.0 / 9.0, 0.0, 0.0), Vec3(0.0, -2.0, 0.0);
      pixelDeltaU, pixelDeltaV := Vec3(1.0 / 112.5, 0.0, 0.0), Vec3(0.0, -1.0 / 112.5, 0.0);
      viewportUpperLeft := Vec3(-16.0 / 9.0, 1.0, -1.0);
      pixel00Loc := Pixel00(Vec3(-16.0 / 9.0, 1.0, -1.0), Vec3(1.0 / 112.5, 0.0, 0.0), Vec3(0.0, -1.0 / 112.5, 0.0));
      new;
      DefaultsValid();
    }

    /** The fields `Camera::new` sets agree with `update`'s formulas. */
    lemma DefaultsValid()
      requires aspectRatio == 16.0 / 9.0 && imageWidth == 400 && focalLength == 1.0 && viewportHeight == 2.0
      requires cameraPos == Vec3(0.0, 0.0, 0.0) && stretch == None
      requires imageHeight == 225 && viewportWidth == 32.0 / 9.0
      requires viewportU == Vec3(32.0 / 9.0, 0.0, 0.0) && viewportV == Vec3(0.0, -2.0, 0.0)
      requires pixelDeltaU == Vec3(1.0 / 112.5, 0.0, 0.0) && pixelDeltaV == Vec3(0.0, -1.0 / 112.5, 0.0)
      requires viewportUpperLeft == Vec3(-16.0 / 9.0, 1.0, -1.0)
      requires pixel00Loc == Pixel00(viewportUpperLeft, pixelDeltaU, pixelDeltaV)
      ensures Valid()
      ensures viewportUpperLeft == UpperLeft(cameraPos, focalLength, viewportU, viewportV)
    {
      DefaultUpperLeft();
      DefaultHeight();
      DefaultViewportWidth();
      DefaultStepU();
      DefaultStepV();
    }

    /** `Camera::update`: recompute every derived field from the inputs. The
        input fields stay as they are; without a stretch the upper-left
        corner is left alone. Run on a camera whose derived fields are
        already up to date it changes nothing. */
    method Update()
      requires InputsValid()
      modifies this
      ensures aspectRatio == old(aspectRatio) && imageWidth == old(imageWidth)
      ensures focalLength == old(focalLength) && viewportHeight == old(viewportHeight)
      ensures cameraPos == old(cameraPos) && stretch == old(stretch)
      ensures DerivedFrom(old(viewportUpperLeft))
      ensures Valid()
      ensures old(Valid()) ==> unchanged(this)
    {
      imageHeight := ImageHeightFor(imageWidth, aspectRatio);
      viewportWidth := ViewportWidthFor(viewportHeight, imageWidth, imageHeight);
      viewportU := Vec3(viewportWidth, 0.0, 0.0);
      viewportV := Vec3(0.0, -viewportHeight, 0.0);
      pixelDeltaU := DeltaU(viewportU, imageWidth, stretch);
      pixelDeltaV := DeltaV(viewportV, imageHeight, stretch);
      match stretch {
        case None =>
        case Some(s) =>
          viewportUpperLeft := StretchedUpperLeft(cameraPos, focalLength, viewportU, viewportV, s);
      }
      pixel00Loc := Pixel00(viewportUpperLeft, pixelDeltaU, pixelDeltaV);
    }

    /** `Camera::set_width` */
    method SetWidth(width: int)
      requires Valid() && 1 <= width <= I32_MAX
      modifies this
      ensures imageWidth == width
      ensures aspectRatio == old(aspectRatio) && focalLength == old(focalLength)
      ensures viewportHeight == old(viewportHeight) && cameraPos == old(cameraPos) && stretch == old(stretch)
      ensures DerivedFrom(old(viewportUpperLeft)) && Valid()
      ensures width == old(imageWidth) ==> unchanged(this)
    {
      imageWidth := width;
      Update();
    }

    /** `Camera::set_aspect_ratio` */
    method SetAspectRatio(aspect: real)
      requires Valid() && aspect > 0.0
      modifies this
      ensures aspectRatio == aspect
      ensures imageWidth == old(imageWidth) && focalLength == old(focalLength)
      ensures viewportHeight == old(viewportHeight) && cameraPos == old(cameraPos) && stretch == old(stretch)
      ensures DerivedFrom(old(viewportUpperLeft)) && Valid()
      ensures aspect == old(aspectRatio) ==> unchanged(this)
    {
      aspectRatio := aspect;
      Update();
    }

    /** `Camera::set_viewport_height` */
    method SetViewportHeight(height: real)
      requires Valid()
      modifies this
      ensures viewportHeight == height
      ensures aspectRatio == old(aspectRatio) && imageWidth == old(imageWidth)
      ensures focalLength == old(focalLength) && cameraPos == old(cameraPos) && stretch == old(stretch)
      ensures DerivedFrom(old(viewportUpperLeft)) && Valid()
      ensures height == old(viewportHeight) ==> unchanged(this)
    {
      viewportHeight := height;
      Update();
    }

    /** `Camera::set_focal_length`. Without a stretch the corner is not
        recomputed, so the new focal length moves no pixel. */
    method SetFocalLength(focal: real)
      requires Valid()
      modifies this
      ensures focalLength == focal
      ensures aspectRatio == old(aspectRatio) && imageWidth == old(imageWidth)
      ensures viewportHeight == old(viewportHeight) && cameraPos == old(cameraPos) && stretch == old(stretch)
      ensures DerivedFrom(old(viewportUpperLeft)) && Valid()
      ensures focal == old(focalLength) ==> unchanged(this)
      ensures stretch.None? ==> pixel00Loc == old(pixel00Loc)
    {
      focalLength := focal;
      Update();
    }

    /** `Camera::set_stretch` */
    method SetStretch(s: Stretch)
      requires Valid()
      modifies this
      ensures stretch == Some(s)
      ensures aspectRatio == old(aspectRatio) && imageWidth == old(imageWidth)
      ensures focalLength == old(focalLength) && viewportHeight == old(viewportHeight)
      ensures cameraPos == old(cameraPos)
      ensures DerivedFrom(old(viewportUpperLeft)) && Valid()
      ensures old(stretch) == Some(s) ==> unchanged(this)
    {
      stretch := Some(s);
      Update();
    }
  }

  // ---------------------------------------------------------------------
  // The pixel grid.

  lemma HalfSpan(a: real, n: real, s: real)
    requires n != 0.0
    ensures (a * (1.0 / n)) * s * (n / 2.0) == a * s * (1.0 / 2.0)
  {
  }

  /** Half of the `n` stretched steps of `u / n` span half the stretched
      `u`. */
  lemma HalfOfSteps(u: Vec3, n: real, s: real)
    requires n != 0.0
    ensures ScalarMul(n / 2.0, MulScalar(Div(u, n), s)) == Div(MulScalar(u, s), 2.0)
  {
    HalfSpan(u.x, n, s);
    HalfSpan(u.y, n, s);
    HalfSpan(u.z, n, s);
  }

  /** Adding back what was subtracted returns to the start. */
  lemma SubtractThenAdd(a: Vec3, p: Vec3, q: Vec3)
    ensures Add(Add(Sub(Sub(a, p), q), p), q) == a
  {
  }

  /** Under a stretch the pixel grid is centred on the view axis: half the
      width and half the height of steps from the corner reach the point
      `pos - (0, 0, f)` straight ahead of the camera. */
  lemma StretchedGridCentred(pos: Vec3, focal: real, u: Vec3, v: Vec3, width: int, height: int, s: Stretch)
    requires width >= 1 && height >= 1
    ensures Add(Add(StretchedUpperLeft(pos, focal, u, v, s),
                    ScalarMul(width as real / 2.0, DeltaU(u, width, Some(s)))),
                ScalarMul(height as real / 2.0, DeltaV(v, height, Some(s))))
         == Sub(pos, Vec3(0.0, 0.0, focal))
  {
    HalfOfSteps(u, width as real, s.su);
    HalfOfSteps(v, height as real, s.sv);
    SubtractThenAdd(Sub(pos, Vec3(0.0, 0.0, focal)), Div(MulScalar(u, s.su), 2.0), Div(MulScalar(v, s.sv), 2.0));
  }

  /** Half of the `n` steps of `u / n` span half of `u`. */
  lemma HalfOfPlainSteps(u: Vec3, n: real)
    requires n != 0.0
    ensures ScalarMul(n / 2.0, Div(u, n)) == Div(u, 2.0)
  {
    HalfSpan(u.x, n, 1.0);
    HalfSpan(u.y, n, 1.0);
    HalfSpan(u.z, n, 1.0);
  }

  /** Without a stretch, a grid anchored where `Camera::new` puts the corner
      is centred on the view axis in the same way. */
  lemma PlainGridCentred(pos: Vec3, focal: real, u: Vec3, v: Vec3, width: int, height: int)
    requires width >= 1 && height >= 1
    ensures Add(Add(UpperLeft(pos, focal, u, v),
                    ScalarMul(width as real / 2.0, DeltaU(u, width, None))),
                ScalarMul(height as real / 2.0, DeltaV(v, height, None)))
         == Sub(pos, Vec3(0.0, 0.0, focal))
  {
    HalfOfPlainSteps(u, width as real);
    HalfOfPlainSteps(v, height as real);
    SubtractThenAdd(Sub(pos, Vec3(0.0, 0.0, focal)), Div(u, 2.0), Div(v, 2.0));
  }

  /** The same for a camera: with a stretch set, the grid of a valid camera
      is centred in front of it. */
  lemma CameraGridCentred(cam: Camera)
    requires cam.Valid() && cam.stretch.Some?
    ensures Add(Add(cam.viewportUpperLeft, ScalarMul(cam.imageWidth as real / 2.0, cam.pixelDeltaU)),
                ScalarMul(cam.imageHeight as real / 2.0, cam.pixelDeltaV))
         == Sub(cam.cameraPos, Vec3(0.0, 0.0, cam.focalLength))
  {
    StretchedGridCentred(cam.cameraPos, cam.focalLength, cam.viewportU, cam.viewportV,
                         cam.imageWidth, cam.imageHeight, cam.stretch.value);
  }
}
