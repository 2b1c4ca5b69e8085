/** The frame loop of `main` (src/main.rs): the pixel-to-ray mapping, the
    choice of character per pixel, one frame of rows and columns, and the
    Euler accumulator that turns the scene triangle a little further every
    frame. Printing, the pause between frames and the endless `loop` are
    not modelled: a frame is the string `main` prints, and a run of frames
    is the sequence of those strings. */
module Render {
  import opened Vectors
  import opened Rotation
  import opened Rays
  import opened Objects
  import opened Cameras

  // ---------------------------------------------------------------------
  // One pixel.

  /** The character `main` prints for a ray: `'#'` when it hits the
      triangle, `'.'` when it misses. */
  function PixelChar(r: Ray, tri: Object): (c: char)
    ensures c == '#' <==> Hit(tri, r)
    ensures c == '.' <==> !Hit(tri, r)
  {
    if Hit(tri, r) then '#' else '.'
  }

  /** `color_ray`: the one-character string of the ray's character. */
  function ColorRay(r: Ray, tri: Object): (s: string)
    ensures |s| == 1 && s[0] == PixelChar(r, tri)
  {
    if Hit(tri, r) then "#" else "."
  }

  /** `color_ray` returns `"#"` exactly for a ray that hits the triangle and
      `"."` exactly for one that misses it. */
  lemma ColorRayHit(r: Ray, tri: Object)
    ensures ColorRay(r, tri) == "#" <==> Hit(tri, r)
    ensures ColorRay(r, tri) == "." <==> !Hit(tri, r)
  {
    var s := ColorRay(r, tri);
    assert s == [s[0]];
  }

  /** The centre of pixel `(i, j)`: `pixel00_loc + i * du + j * dv`. */
  function PixelCenter(pixel00: Vec3, du: Vec3, dv: Vec3, i: int, j: int): Vec3 {
    Add(Add(pixel00, ScalarMul(i as real, du)), ScalarMul(j as real, dv))
  }

  /** The ray `main` casts through pixel `(i, j)` of the camera: from the
      camera's position towards the pixel's centre, which it reaches at
      parameter 1. */
  function PixelRay(cam: Camera, i: int, j: int): (r: Ray)
    reads cam
    ensures r.origin == cam.cameraPos
    ensures Add(r.origin, r.dir) == PixelCenter(cam.pixel00Loc, cam.pixelDeltaU, cam.pixelDeltaV, i, j)
  {
    Ray(cam.cameraPos, Sub(PixelCenter(cam.pixel00Loc, cam.pixelDeltaU, cam.pixelDeltaV, i, j), cam.cameraPos))
  }

  /** Neighbouring pixels of a row are one horizontal step apart, and
      neighbouring pixels of a column one vertical step. */
  lemma PixelRayNeighbours(cam: Camera, i: int, j: int)
    ensures PixelRay(cam, i + 1, j).dir == Add(PixelRay(cam, i, j).dir, cam.pixelDeltaU)
    ensures PixelRay(cam, i, j + 1).dir == Add(PixelRay(cam, i, j).dir, cam.pixelDeltaV)
  {
    NextMultiple(cam.pixelDeltaU, i as real);
    NextMultiple(cam.pixelDeltaV, j as real);
  }

  /** `(k + 1) * v == k * v + v`. */
  lemma NextMultiple(v: Vec3, k: real)
    ensures ScalarMul(k + 1.0, v) == Add(ScalarMul(k, v), v)
  {
  }

  /** Pixel (0, 0) sits at the camera's `pixel00_loc`. */
  lemma PixelRayOrigin(cam: Camera)
    ensures At(PixelRay(cam, 0, 0), 1.0) == cam.pixel00Loc
  {
  }

  // ---------------------------------------------------------------------
  // One frame.

  /** The picture a camera takes of a triangle: the character `main` prints
      at every column `i` and row `j`. */
  function Picture(cam: Camera, tri: Object): (int, int) -> char
    reads cam
  {
    var pos, pixel00, du, dv := cam.cameraPos, cam.pixel00Loc, cam.pixelDeltaU, cam.pixelDeltaV;
    (i: int, j: int) => PixelChar(Ray(pos, Sub(PixelCenter(pixel00, du, dv, i, j), pos)), tri)
  }

  /** The picture at `(i, j)` is the character of the ray through pixel
      `(i, j)`: `'#'` exactly when that ray hits the triangle. */
  lemma PictureAt(cam: Camera, tri: Object, i: int, j: int)
    ensures Picture(cam, tri)(i, j) == PixelChar(PixelRay(cam, i, j), tri)
    ensures Picture(cam, tri)(i, j) == '#' <==> Hit(tri, PixelRay(cam, i, j))
  {
  }

  /** Row `j` of a picture, columns `0` to `n - 1`, as the inner loop prints
      it. */
  function RowText(picture: (int, int) -> char, j: int, n: nat): (s: string)
    ensures |s| == n
  {
    if n == 0 then "" else RowText(picture, j, n - 1) + [picture(n - 1, j)]
  }

  /** Column `i` of row `j` is the picture's character at `(i, j)`. */
  lemma {:induction false} RowChars(picture: (int, int) -> char, j: int, n: nat)
    ensures forall i :: 0 <= i < n ==> RowText(picture, j, n)[i] == picture(i, j)
  {
    if n > 0 {
      RowChars(picture, j, n - 1);
    }
  }

  /** Rows `0` to `m - 1` of a picture `w` pixels wide, each followed by the
      newline of `println!`. */
  function FrameText(picture: (int, int) -> char, w: nat, m: nat): string {
    if m == 0 then "" else FrameText(picture, w, m - 1) + RowText(picture, m - 1, w) + "\n"
  }

  /** A frame of `m` rows `w` pixels wide holds `m * (w + 1)` characters. */
  lemma {:induction false} FrameLength(picture: (int, int) -> char, w: nat, m: nat)
    ensures |FrameText(picture, w, m)| == m * (w + 1)
  {
    if m > 0 {
      FrameLength(picture, w, m - 1);
      assert (m - 1) * (w + 1) + (w + 1) == m * (w + 1);
    }
  }

  /** The first `j` rows of a frame are its beginning. Since
      `FrameText(picture, w, j + 1)` is `FrameText(picture, w, j)` followed
      by row `j` and a newline, every frame of more than `j` rows holds row
      `j` right after rows `0` to `j - 1`. */
  lemma {:induction false} FramePrefix(picture: (int, int) -> char, w: nat, j: nat, m: nat)
    requires j <= m
    ensures FrameText(picture, w, j) <= FrameText(picture, w, m)
  {
    if j == m {
      PrefixOfItself(FrameText(picture, w, m));
    } else {
      FramePrefix(picture, w, j, m - 1);
      var previous, row := FrameText(picture, w, m - 1), RowText(picture, m - 1, w);
      PrefixExtends(FrameText(picture, w, j), previous, row);
      PrefixExtends(FrameText(picture, w, j), previous + row, "\n");
    }
  }

  /** The layout of a printed frame: row `j` starts at `j * (w + 1)`, with
      the picture's character at `(i, j)` in column `i < w` and the row's
      newline in column `w`. */
  lemma {:induction false} FrameAt(picture: (int, int) -> char, w: nat, m: nat, i: nat, j: nat)
    requires j < m && i <= w
    ensures j * (w + 1) + i < |FrameText(picture, w, m)|
    ensures FrameText(picture, w, m)[j * (w + 1) + i] == if i < w then picture(i, j) else '\n'
  {
    var before, row := FrameText(picture, w, j), RowText(picture, j, w);
    assert FrameText(picture, w, j + 1) == before + row + "\n";
    FrameLength(picture, w, j);
    FrameLength(picture, w, m);
    FramePrefix(picture, w, j + 1, m);
    RowChars(picture, j, w);
    assert (j + 1) * (w + 1) == j * (w + 1) + w + 1;
    var k := j * (w + 1) + i;
    assert FrameText(picture, w, m)[k] == (before + row + "\n")[k];
  }

  lemma PrefixOfItself(s: string)
    ensures s <= s
  {
    assert s[..|s|] == s;
  }

  /** A prefix of `a` is a prefix of `a + b`. */
  lemma PrefixExtends(p: string, a: string, b: string)
    requires p <= a
    ensures p <= a + b
  {
    assert (a + b)[..|p|] == a[..|p|];
  }

  /** A picture in `'#'` and `'.'` gives a frame in `'#'`, `'.'` and
      newlines. */
  lemma {:induction false} FrameAlphabet(picture: (int, int) -> char, w: nat, m: nat)
    requires forall i, j :: picture(i, j) in "#."
    ensures forall k :: 0 <= k < |FrameText(picture, w, m)| ==> FrameText(picture, w, m)[k] in "#.\n"
  {
    if m > 0 {
      FrameAlphabet(picture, w, m - 1);
      RowChars(picture, m - 1, w);
    }
  }

  /** The camera's pictures are in `'#'` and `'.'`. */
  lemma PictureAlphabet(cam: Camera, tri: Object)
    ensures forall i, j :: Picture(cam, tri)(i, j) in "#."
  {
  }

  /** The number of steps of `for _ in 0..n`: none when `n` is not
      positive. */
  function RangeLength(n: int): (k: nat)
    ensures n >= 0 ==> k == n
    ensures n < 0 ==> k == 0
  {
    if n < 0 then 0 else n
  }

  /** The frame `main` prints for the camera and the triangle. */
  function CameraFrame(cam: Camera, tri: Object): string
    reads cam
  {
    FrameText(Picture(cam, tri), RangeLength(cam.imageWidth), RangeLength(cam.imageHeight))
  }

  /** The body of `main`'s frame loop: for every row `j` and every column
      `i` the string `color_ray` gives for the ray through pixel `(i, j)`,
      and a newline after every row. */
  method RenderFrame(cam: Camera, tri: Object) returns (frame: string)
    ensures frame == CameraFrame(cam, tri)
  {
    var height, width := RangeLength(cam.imageHeight), RangeLength(cam.imageWidth);
    ghost var picture := Picture(cam, tri);
    frame := "";
    var j := 0;
    while j < height
      invariant 0 <= j <= height
      invariant frame == FrameText(picture, width, j)
    {
      var row := "";
      var i := 0;
      while i < width
        invariant 0 <= i <= width
        invariant row == RowText(picture, j, i)
      {
        var pixel := ColorRay(PixelRay(cam, i, j), tri);
        PictureAt(cam, tri, i, j);
        assert pixel == [picture(i, j)];
        row := row + pixel;
        i := i + 1;
      }
      frame := frame + row + "\n";
      j := j + 1;
    }
  }

  // ---------------------------------------------------------------------
  // The set-up of `main`.

  /** The set-up `main` applies to the camera of `Camera::new()` for a
      terminal of `columns` by `lines` characters: as wide as the terminal
      (cast to `i32`), with the terminal's aspect ratio, focal length 1.5
      and the stretch `(0.5, 1.0)` that makes up for character cells being
      about twice as tall as they are wide. The position and the viewport
      height stay those of `Camera::new()`. */
  method Configure(cam: Camera, columns: int, lines: int)
    requires cam.Valid() && columns >= 1 && lines >= 1
    modifies cam
    ensures cam.Valid()
    ensures cam.imageWidth == CastToI32(columns as real)
    ensures cam.aspectRatio == columns as real / lines as real
    ensures cam.focalLength == 1.5 && cam.stretch == Some(Stretch(0.5, 1.0))
    ensures cam.viewportHeight == old(cam.viewportHeight) && cam.cameraPos == old(cam.cameraPos)
    ensures columns <= I32_MAX ==> cam.imageHeight == (if lines <= I32_MAX then lines else I32_MAX)
  {
    cam.SetWidth(CastToI32(columns as real));
    cam.SetAspectRatio(columns as real / lines as real);
    cam.SetFocalLength(1.5);
    cam.SetStretch(Stretch(0.5, 1.0));
    if columns <= I32_MAX {
      TerminalRows(columns, lines);
    }
  }

  /** A picture as wide as the terminal with the terminal's aspect ratio
      has as many rows as the terminal has lines, up to `i32::MAX`. */
  lemma TerminalRows(columns: int, lines: int)
    requires 1 <= columns <= I32_MAX && lines >= 1
    ensures CastToI32(columns as real) == columns
    ensures ImageHeightFor(columns, columns as real / lines as real)
         == if lines <= I32_MAX then lines else I32_MAX
  {
    var aspect := columns as real / lines as real;
    assert aspect * lines as real == columns as real;
    assert columns as real / aspect == lines as real;
    ImageHeightIsClampedFloor(columns, aspect);
  }

  // ---------------------------------------------------------------------
  // The animation.

  /** `X_ROTATE_SPEED`, `Y_ROTATE_SPEED` and `Z_ROTATE_SPEED`: the angle
      added to each Euler component per frame. */
  const ROTATE_SPEED: real := 0.03 / 2.0

  /** The triangle `main` starts from. */
  function SceneTriangle(): (o: Object)
    ensures o.Triangle? && WellFormed(o)
  {
    NewTriangle(Vec3(0.0, 0.5, -1.0), Vec3(-0.5, -0.5, -1.0), Vec3(0.5, -0.5, -1.0))
  }

  /** Its centre is `(0, -1/6, -1)`. */
  lemma SceneCentre()
    ensures SceneTriangle().center == Vec3(0.0, -1.0 / 6.0, -1.0)
  {
    SceneCentroid();
  }

  lemma SceneCentroid()
    ensures Centroid(Vec3(0.0, 0.5, -1.0), Vec3(-0.5, -0.5, -1.0), Vec3(0.5, -0.5, -1.0))
         == Vec3(0.0, -1.0 / 6.0, -1.0)
  {
  }

  /** The Euler angles after `n` frames, as the three `+=` statements
      accumulate them. */
  function EulerAfter(n: nat): Vec3 {
    if n == 0 then Vec3(0.0, 0.0, 0.0)
    else
      var e := EulerAfter(n - 1);
      Vec3(e.x + ROTATE_SPEED, e.y + ROTATE_SPEED, e.z + ROTATE_SPEED)
  }

  /** After `n` frames every Euler component is `n * 0.015`. */
  lemma {:induction false} EulerAfterIsMultiple(n: nat)
    ensures EulerAfter(n) == Vec3(n as real * 0.015, n as real * 0.015, n as real * 0.015)
  {
    if n > 0 {
      EulerAfterIsMultiple(n - 1);
      NextStep(n - 1);
    }
  }

  /** `k * 0.015 + 0.03 / 2 == (k + 1) * 0.015` */
  lemma NextStep(k: nat)
    ensures k as real * 0.015 + ROTATE_SPEED == (k + 1) as real * 0.015
  {
  }

  /** The triangle after `n` frames: each frame rebinds it to itself
      rotated about its centre by the Euler angles accumulated so far. */
  function TriangleAfter(start: Object, n: nat, sin: real -> real, cos: real -> real): Object {
    if n == 0 then start
    else RotateAroundCenter(TriangleAfter(start, n - 1, sin, cos), EulerAfter(n), sin, cos)
  }

  /** The animation keeps the triangle a triangle with a correct cached
      centre, and that centre never moves. */
  lemma {:induction false} TriangleAfterKeepsCenter(start: Object, n: nat, sin: real -> real, cos: real -> real)
    requires start.Triangle? && WellFormed(start)
    ensures TriangleAfter(start, n, sin, cos).Triangle?
    ensures WellFormed(TriangleAfter(start, n, sin, cos))
    ensures TriangleAfter(start, n, sin, cos).center == start.center
  {
    if n > 0 {
      TriangleAfterKeepsCenter(start, n - 1, sin, cos);
      RotateAroundCenterKeepsCenter(TriangleAfter(start, n - 1, sin, cos), EulerAfter(n), sin, cos);
    }
  }

  /** The scene triangle stays centred on `(0, -1/6, -1)` in every frame. */
  lemma SceneCentreStays(n: nat, sin: real -> real, cos: real -> real)
    ensures TriangleAfter(SceneTriangle(), n, sin, cos).center == Vec3(0.0, -1.0 / 6.0, -1.0)
  {
    TriangleAfterKeepsCenter(SceneTriangle(), n, sin, cos);
    SceneCentre();
  }

  /** The frames of the first `n` passes of `main`'s loop, starting from
      the triangle `start`. */
  function Frames(cam: Camera, start: Object, n: nat, sin: real -> real, cos: real -> real): (fs: seq<string>)
    reads cam
    ensures |fs| == n
  {
    if n == 0 then []
    else Frames(cam, start, n - 1, sin, cos)
         + [CameraFrame(cam, TriangleAfter(start, n - 1, sin, cos))]
  }

  /** Frame `k` pictures the triangle after `k` turns. */
  lemma {:induction false} FramesAt(cam: Camera, start: Object, n: nat, sin: real -> real, cos: real -> real, k: nat)
    requires k < n
    ensures Frames(cam, start, n, sin, cos)[k]
         == CameraFrame(cam, TriangleAfter(start, k, sin, cos))
  {
    var earlier := Frames(cam, start, n - 1, sin, cos);
    var last := CameraFrame(cam, TriangleAfter(start, n - 1, sin, cos));
    assert Frames(cam, start, n, sin, cos) == earlier + [last];
    if k < n - 1 {
      FramesAt(cam, start, n - 1, sin, cos, k);
      assert (earlier + [last])[k] == earlier[k];
    }
  }

  /** `frames` passes of `main`'s loop from the triangle `start` (which is
      `SceneTriangle()` in `main`): render the frame, add the speed to each
      Euler component, rebind the triangle. The camera is not changed. */
  method Run(cam: Camera, start: Object, frames: nat, sin: real -> real, cos: real -> real)
    returns (screens: seq<string>, euler: Vec3, tri: Object)
    ensures screens == Frames(cam, start, frames, sin, cos)
    ensures euler == EulerAfter(frames)
    ensures tri == TriangleAfter(start, frames, sin, cos)
  {
    screens := [];
    euler := Vec3(0.0, 0.0, 0.0);
    tri := start;
    var k := 0;
    while k < frames
      invariant 0 <= k <= frames
      invariant screens == Frames(cam, start, k, sin, cos)
      invariant euler == EulerAfter(k)
      invariant tri == TriangleAfter(start, k, sin, cos)
    {
      var frame := RenderFrame(cam, tri);
      screens := screens + [frame];
      euler := euler.(x := euler.x + ROTATE_SPEED);
      euler := euler.(y := euler.y + ROTATE_SPEED);
      euler := euler.(z := euler.z + ROTATE_SPEED);
      tri := RotateAroundCenter(tri, euler, sin, cos);
      k := k + 1;
    }
  }
}
