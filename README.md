# A verified model of the c3Drik terminal ray-caster

c3Drik draws a spinning triangle in a terminal. It places a camera with a
pixel grid in front of it and casts one ray per character cell through the
grid. Each cell gets `#` when its ray hits the triangle and `.` when it
misses. After every frame it adds a small angle to each of three Euler
angles and turns the triangle about its centroid by the quaternion of those
angles.

What the model covers:

- **`Vectors`** (`vector.dfy`): the `Vec3` arithmetic of `src/vector.rs`,
  including the compound assignments, the dot and cross products, and the
  algebra the intersection proofs need. That algebra includes Cramer's rule
  for the 3x3 system of the triangle test.
- **`Rotation`** (`rotation.dfy`): the quaternions of `src/rotation.rs`.
  - Embedding a point, conjugation, the Hamilton product and the sandwich
    rotation `q p q*`.
  - The Euler-angle conversion, and `Vec3::rotate_around_point`.
  - Proved: the conversion is a product of three half-angle quaternions and
    has unit norm, so the rotation keeps lengths and distances. Also proved:
    zero angles change nothing, and four quarter turns about an axis bring
    a point back.
- **`Rays`** (`ray.dfy`): `Ray` and the point `o + t d` along it.
- **`Objects`** (`object.dfy`): the triangle/sphere object of
  `src/object.rs`.
  - The Moller-Trumbore triangle test, with its early exits, and the sphere
    discriminant test.
  - `move_to`, `rotate_around_center` and `rotate_around_point`.
  - The cached centroid and the invariant that it stays correct
    (`WellFormed`).
- **`Intersection`** (`intersection.dfy`): what the two hit tests decide,
  in geometric terms.
  - A ray that is not nearly parallel hits the triangle exactly when a
    point `o + t d` with `t > EPSILON` lies in the closed triangle.
  - For a non-zero direction, a sphere is hit exactly when some point of
    the ray's whole LINE lies within the radius. The sign of `t` is never
    checked, so the test gives the same answer for the reversed ray. A ray
    with a zero direction counts as hitting every sphere.
- **`Cameras`** (`camera.dfy`): `Camera` of `src/camera.rs` as a class.
  - Its fields, `new`, `update` and the five setters.
  - The class invariant `Valid()`: every derived field is what `update`
    computes from the input fields.
  - Proved: with a stretch set, the pixel grid is centred in front of the
    camera.
- **`Render`** (`render.dfy`): the body of `main` in `src/main.rs`.
  - The ray through each pixel, `color_ray`, and one frame as the string
    the nested loops print.
  - The set-up of the camera from the terminal size.
  - The Euler accumulator, and the sequence of frames of the first `n`
    passes of the loop.
- **`Scene`** (`scene.dfy`): the scene of `main`. The ray straight ahead of
  the camera hits the starting triangle. The ray straight behind it misses.

Every `f64` is a `real`, and `f64::EPSILON` is its exact value `2^-52`.
`sin` and `cos` are parameters of every function that needs them. Lemmas
that need them to behave like the trigonometric functions state exactly
what they assume: `sin 0 = 0`, `cos 0 = 1`, or `sin^2 + cos^2 = 1` at the
half angles used.

`src/main.rs` repeats the quaternion, vector, ray, triangle and camera
code of the other files with the same formulas. Its Euler conversion
(`src/main.rs:73-90`) writes the sines and cosines inline but computes the
same components. Each of these is modelled once, by the member that models
the other file.

## Model

| member | source | states |
|---|---|---|
| Vectors.Add | src/vector.rs:31-41 | componentwise `+`; its properties are stated by `AddSubInverse`, `DotLinear` and `CrossLinear` |
| Vectors.Sub | src/vector.rs:44-54 | componentwise `-`; undone by `Add` (`AddSubInverse`) |
| Vectors.Mul | src/vector.rs:57-67 | componentwise `*` of two vectors; `MulLaws` states that it commutes and how it relates to scaling |
| Vectors.MulScalar | src/vector.rs:70-80 | `v * s`, every component scaled by `s`; `ScalarMulCommutes` and `DivUndoesScale` state its laws |
| Vectors.ScalarMul | src/vector.rs:83-89 | `s * v`; `ScalarMulCommutes` proves it equal to `v * s` |
| Vectors.Div | src/vector.rs:92-98 | `v / s`; `DivIsComponentwise` and `DivUndoesScale` state its meaning for `s != 0` |
| Vectors.Dot | src/vector.rs:128-130 | the dot product; `DotSymmetric` and `DotLinear` state its laws |
| Vectors.Cross | src/vector.rs:131-137 | the cross product; `CrossAntiCommutative`, `CrossOrthogonal`, `CrossLinear`, `TripleProduct` and `TripleExpand` state its laws |
| Vectors.AddSubInverse | src/vector.rs:31-54 | `(u + v) - v == u` and `(u - v) + v == u`: addition and subtraction undo each other; addition commutes |
| Vectors.MulLaws | src/vector.rs:57-80 | the componentwise product commutes, and multiplying by `(s, s, s)` is scaling by `s` |
| Vectors.ScalarMulCommutes | src/vector.rs:70-89 | `s * v` and `v * s` are the same vector |
| Vectors.DivIsComponentwise | src/vector.rs:92-98 | for a non-zero divisor, `v / s` divides every component by `s` |
| Vectors.DivUndoesScale | src/vector.rs:70-98 | for a non-zero `s`, dividing by `s` and scaling by `s` undo each other, in both orders |
| Vectors.AddAssign | src/vector.rs:101-107 | `+=` leaves `a + rhs`, from which subtracting `rhs` gives back the old value |
| Vectors.SubAssign | src/vector.rs:110-116 | `-=` leaves `a - rhs`, from which adding `rhs` gives back the old value |
| Vectors.MulAssign | src/vector.rs:119-125 | `*=` leaves `a * s`; for `s != 0`, dividing by `s` gives back the old value |
| Vectors.DotSymmetric | src/vector.rs:128-130 | the dot product is symmetric |
| Vectors.DotLinear | src/vector.rs:128-130 | the dot product is linear in its first argument over `+`, `-` and scaling |
| Vectors.CrossAntiCommutative | src/vector.rs:131-137 | `u x v == -(v x u)` and `u x u == 0` |
| Vectors.CrossOrthogonal | src/vector.rs:131-137 | `u x v` is orthogonal to both `u` and `v` |
| Vectors.CrossLinear | src/vector.rs:131-137 | the cross product is linear in its first argument over `+`, `-` and scaling |
| Vectors.TripleProduct | src/vector.rs:128-137 | the scalar triple product is invariant under cyclic permutation and changes sign under a swap |
| Vectors.TripleExpand | src/vector.rs:128-137 | the scalar triple product is the 3x3 determinant of its arguments' components |
| Vectors.Cramer | src/object.rs:55-79 | Cramer's rule for the triangle test's system: `s * det == u' e1 + v' e2 - t' d` with the test's triple products as `u'`, `v'`, `t'` |
| Vectors.CramerUnique | src/object.rs:55-79 | the converse: if `s == u e1 + v e2 - t d`, then each triple product the test forms is that coefficient times `det` |
| Rotation.Conjugate | src/rotation.rs:25-32 | the quaternion conjugate; `ConjugateInvolution` states its laws |
| Rotation.Mul | src/rotation.rs:61-72 | the Hamilton product; `MulIdentity` and `NormMultiplicative` state its laws |
| Rotation.Rotate | src/rotation.rs:33-41 | the vector part of `q p q*`; `RotateFormula`, `RotateLinear` and `RotatePreservesLength` state its meaning |
| Rotation.EulerToQuaternion | src/rotation.rs:42-58 | the Euler-angle conversion; `EulerIsComposition`, `EulerIsUnit` and `EulerZero` state its meaning |
| Rotation.RotateAroundPoint | src/vector.rs:11-25 | `Vec3::rotate_around_point`; `RotateAroundPointIs`, `PivotFixed` and `RotateAroundPointRigid` state its meaning |
| Rotation.FromPoint | src/rotation.rs:16-24 | the embedded point has zero real part and the point as its vector part |
| Rotation.FromPointRoundTrip | src/rotation.rs:16-32 | the vector part of the embedded point is the point, and conjugating it embeds the negated point |
| Rotation.ConjugateInvolution | src/rotation.rs:25-32 | conjugation keeps the real part, negates the vector part, is its own inverse and keeps the norm |
| Rotation.MulIdentity | src/rotation.rs:61-72 | `(1, 0, 0, 0)` is a two-sided identity of the Hamilton product |
| Rotation.NormMultiplicative | src/rotation.rs:61-72 | the squared norm of a product is the product of the squared norms |
| Rotation.RotateFormula | src/rotation.rs:33-41 | `q p q*` has zero real part, and `rotate` returns its vector part written out as a polynomial in the components |
| Rotation.RotateIdentity | src/rotation.rs:33-41 | rotating by the identity quaternion returns the point |
| Rotation.RotateLinear | src/rotation.rs:33-41 | `rotate` is linear: it commutes with vector addition and scaling |
| Rotation.RotateZero | src/rotation.rs:33-41 | rotating the zero vector gives the zero vector |
| Rotation.RotatePreservesLength | src/rotation.rs:33-41 | a unit quaternion's rotation keeps the length of every vector |
| Rotation.EulerIsComposition | src/rotation.rs:42-58 | the Euler quaternion is the conjugate of heading * pitch * bank, the product of three half-angle single-axis quaternions |
| Rotation.EulerIsUnit | src/rotation.rs:42-58 | where sine and cosine satisfy `sin^2 + cos^2 = 1` at the three half angles, the Euler quaternion has norm 1 |
| Rotation.EulerZero | src/rotation.rs:42-58 | where `sin 0 = 0` and `cos 0 = 1`, zero Euler angles give the identity quaternion |
| Rotation.RotateAroundPointIs | src/vector.rs:11-25 | `rotate_around_point` is `center + rotate(q, p - center)` |
| Rotation.FixedWhenOffsetFixed | src/vector.rs:11-25 | a point whose offset from the pivot the rotation fixes is itself fixed |
| Rotation.RotateAroundPointIdentity | src/vector.rs:11-25 | the identity quaternion leaves every point in place |
| Rotation.RotateAroundPointOffset | src/vector.rs:11-25 | the point `c + d` rotated about `c` is `c + rotate(q, d)` |
| Rotation.PivotFixed | src/vector.rs:11-25 | the pivot itself never moves |
| Rotation.RotateAroundPointRigid | src/vector.rs:11-25 | a unit quaternion's rotation about a pivot keeps the distance between any two points |
| Rotation.RotateAroundPointZeroEuler | src/vector.rs:11-25 | zero Euler angles leave every point in place |
| Rotation.FourQuarterTurns | src/vector.rs:11-25 | four quarter turns about the x-axis through a pivot bring every point back |
| Rotation.QuarterTurn | src/rotation.rs:33-41 | the quarter-turn quaternion `(c, -c, 0, 0)` with `c^2 = 1/2` maps `(x, y, z)` to `(x, z, -y)` |
| Rays.Origin | src/ray.rs:13-15 | the getter `origin`; `GettersRoundTrip` states that it returns what `new` was given |
| Rays.Direction | src/ray.rs:16-18 | the getter `direction`; `GettersRoundTrip` states that it returns what `new` was given |
| Rays.NewRay | src/ray.rs:10-12 | the new ray has the given origin and direction |
| Rays.GettersRoundTrip | src/ray.rs:10-18 | `origin` and `direction` return what `new` was given, and `new` over a ray's getters rebuilds the ray |
| Rays.At | src/object.rs:74-83 | the point at parameter `t` is `t` directions away from the origin |
| Objects.Hit | src/object.rs:48-94 | `hit`, dispatching on the kind of object; `TriangleHitGeometric` and `SphereHitGeometric` state what it decides |
| Objects.TriangleHit | src/object.rs:50-84 | the Moller-Trumbore test on the vertices; `TriangleHitConditions` and `TriangleHitGeometric` state what it decides |
| Objects.EdgeTest | src/object.rs:55-83 | the test on the edges, the offset and the direction, with its early exits; `EdgeTestConditions` states what it decides |
| Objects.SphereHit | src/object.rs:85-92 | the discriminant test; `SphereHitGeometric` and `SphereHitClosestPoint` state what it decides |
| Objects.MoveTo | src/object.rs:95-102 | `move_to`; `MoveToMoves`, `MoveToComposes` and `MoveToInverse` state its meaning |
| Objects.RotateAroundCenter | src/object.rs:103-117 | `rotate_around_center`; `RotateAroundCenterIsAboutCenter` and `RotateAroundCenterKeepsCenter` state its meaning |
| Objects.RotateObjectAroundPoint | src/object.rs:118-133 | `rotate_around_point` on objects; `RotateObjectAroundPointMoves` and `RotateObjectAroundPointRigid` state its meaning |
| Objects.Centroid | src/object.rs:27-39 | three times the centre is the sum of the three vertices |
| Objects.NewTriangle | src/object.rs:27-39 | a triangle with the given vertices and the correct cached centre |
| Objects.NewSphere | src/object.rs:40-45 | a sphere with the given centre and radius |
| Objects.WellFormedCenter | src/object.rs:27-39 | a well-formed triangle's cached centre is its centroid |
| Objects.CentroidTranslates | src/object.rs:95-102 | translating the vertices translates the centroid by the same vector |
| Objects.MoveToMoves | src/object.rs:95-102 | `move_to` keeps the kind of object and the radius, and translates every vertex and the centre of a well-formed object; the result is well formed |
| Objects.MoveToComposes | src/object.rs:95-102 | moving by `v` and then by `w` is moving by `v + w` |
| Objects.MoveToZero | src/object.rs:95-102 | moving by zero returns the object exactly when it is well formed |
| Objects.MoveToInverse | src/object.rs:95-102 | moving a well-formed object by `v` and then by `-v` gives it back |
| Objects.HitTranslationInvariant | src/object.rs:48-102 | moving object and ray origin by the same vector does not change the hit test |
| Objects.RotateAroundCenterIsAboutCenter | src/object.rs:103-133 | `rotate_around_center` is `rotate_around_point` about the object's own centre |
| Objects.CentroidRotates | src/object.rs:118-133 | the centroid of the rotated vertices is the rotated centroid |
| Objects.RotateObjectAroundPointMoves | src/object.rs:118-133 | `rotate_around_point` keeps the kind of object and the radius, rotates every vertex about the pivot, moves a well-formed object's centre the same way, and gives a well-formed result |
| Objects.RotateAroundCenterKeepsCenter | src/object.rs:103-117 | rotating a well-formed object about its centre keeps its kind, its well-formedness and its centre; a sphere comes back unchanged |
| Objects.RotateAroundCenterZeroEuler | src/object.rs:103-117 | where `sin 0 = 0` and `cos 0 = 1`, zero Euler angles leave a well-formed object unchanged |
| Objects.RotateObjectAroundPointRigid | src/object.rs:118-133 | with unit half-angle sines and cosines, rotation keeps a triangle's three edge lengths and a sphere's distance from the pivot |
| Intersection.EdgeTestConditions | src/object.rs:55-83 | the edge-level test accepts exactly when `|det| >= EPSILON`, `0 <= u <= 1`, `v >= 0`, `u + v <= 1` and `t > EPSILON` |
| Intersection.ParallelMisses | src/object.rs:57-59 | a ray whose determinant lies strictly within `EPSILON` of zero misses the triangle, whatever its stored centre |
| Intersection.TriangleHitConditions | src/object.rs:50-84 | the triangle test accepts exactly when all five conditions hold, in terms of the vertices and the ray |
| Intersection.TriangleHitIgnoresCenter | src/object.rs:50-84 | the cached centre plays no part in the triangle test |
| Intersection.MeetsAtIff | src/object.rs:50-84 | `o + t d` is the plane point `(u, v)` exactly when `o - a == u e1 + v e2 - t d` |
| Intersection.ComputedPointMeets | src/object.rs:63-83 | for a non-zero determinant, the test's `t`, `u`, `v` name the same point on the ray and in the plane |
| Intersection.MeetingPointIsComputed | src/object.rs:63-83 | for a non-zero determinant, any `t`, `u`, `v` naming a common point are the test's `t`, `u`, `v` |
| Intersection.TriangleHitGeometric | src/object.rs:50-84 | the test hits exactly when the ray is not nearly parallel and some point `o + t d` with `t > EPSILON` lies in the closed triangle |
| Intersection.QuadraticIsDistance | src/object.rs:85-92 | the test's quadratic at `t` is the squared distance of `o + t d` from the centre, minus the squared radius |
| Intersection.QuadraticHasNonPositive | src/object.rs:85-92 | for a positive leading coefficient, the quadratic takes a non-positive value exactly when its discriminant is non-negative, and then does so at its vertex |
| Intersection.SphereHitGeometric | src/object.rs:85-92 | for a non-zero direction, the test hits exactly when some point of the ray's line, either side of the origin, is within the radius |
| Intersection.SphereHitClosestPoint | src/object.rs:85-92 | for a non-zero direction, the test hits exactly when the line's point closest to the centre lies within the radius |
| Intersection.SphereHitIgnoresDirectionSign | src/object.rs:85-92 | reversing the direction never changes the sphere test |
| Intersection.ZeroDirectionHitsSphere | src/object.rs:85-92 | a ray with a zero direction counts as hitting every sphere |
| Cameras.CastToI32 | src/camera.rs:92-97 | `as i32` of a non-negative value lies in `0..=i32::MAX` |
| Cameras.CastToI32IsFloor | src/camera.rs:92-97 | below `i32::MAX + 1` the cast is the floor; from there on it saturates at `i32::MAX` |
| Cameras.ImageHeightFor | src/camera.rs:92-97 | the image height lies in `1..=i32::MAX` |
| Cameras.ImageHeightIsClampedFloor | src/camera.rs:92-97 | the image height is the floor of `width / aspect`, raised to 1 and capped at `i32::MAX` |
| Cameras.ViewportWidthFor | src/camera.rs:99-100 | the viewport width `height * (width / rows)` of `update`; `StretchedGridCentred` and `CameraGridCentred` use it |
| Cameras.DeltaU | src/camera.rs:115-121 | the horizontal pixel step, scaled by the stretch when there is one; `StretchedGridCentred` states the grid it spans |
| Cameras.DeltaV | src/camera.rs:115-121 | the vertical pixel step, scaled by the stretch when there is one; `StretchedGridCentred` states the grid it spans |
| Cameras.UpperLeft | src/camera.rs:63-70 | the upper-left corner `new` computes; `PlainGridCentred` and `DefaultUpperLeft` state where it lies |
| Cameras.StretchedUpperLeft | src/camera.rs:123-130 | the upper-left corner `update` computes with a stretch; `StretchedGridCentred` states that the grid is centred on it |
| Cameras.Pixel00 | src/camera.rs:133-134 | the centre of pixel (0, 0), half a step from the corner; `StretchedGridCentred` and `PixelRayOrigin` use it |
| Cameras.DefaultHeight | src/camera.rs:29-89 | a 400-wide 16:9 image has 225 rows |
| Cameras.DefaultUpperLeft | src/camera.rs:29-89 | the default camera's upper-left viewport corner is `(-16/9, 1, -1)` |
| Cameras.Camera.constructor | src/camera.rs:29-89 | `Camera::new`: the default inputs, 225 rows, viewport width 32/9, steps of 1/112.5, the upper-left corner `(-16/9, 1, -1)`, and the class invariant |
| Cameras.Camera.DefaultsValid | src/camera.rs:29-89 | the values `new` stores satisfy the class invariant, that is, `update`'s formulas, and its corner is `UpperLeft` at the default inputs |
| Cameras.Camera.Update | src/camera.rs:91-135 | `update` keeps every input field, recomputes every derived field from them (keeping the old corner when there is no stretch), establishes the invariant, and is a no-op on a valid camera |
| Cameras.Camera.SetWidth | src/camera.rs:137-140 | sets the width, keeps the other inputs, re-derives the rest; setting the current width changes nothing |
| Cameras.Camera.SetAspectRatio | src/camera.rs:141-144 | sets the aspect ratio, keeps the other inputs, re-derives the rest; setting the current ratio changes nothing |
| Cameras.Camera.SetViewportHeight | src/camera.rs:145-148 | sets the viewport height, keeps the other inputs, re-derives the rest; setting the current height changes nothing |
| Cameras.Camera.SetFocalLength | src/camera.rs:149-152 | sets the focal length, keeps the other inputs, re-derives the rest; without a stretch, pixel (0, 0) does not move |
| Cameras.Camera.SetStretch | src/camera.rs:153-156 | sets the stretch, keeps the other inputs, re-derives the rest; setting the current stretch changes nothing |
| Cameras.StretchedGridCentred | src/camera.rs:119-134 | with a stretch, half the columns and half the rows from the upper-left corner lead to the point `focal` ahead of the camera |
| Cameras.PlainGridCentred | src/camera.rs:102-118 | the same for the upper-left corner `Camera::new` computes without a stretch |
| Cameras.CameraGridCentred | src/camera.rs:91-135 | the grid of a valid camera with a stretch is centred on the point `focal` ahead of it |
| Render.PixelChar | src/main.rs:500-506 | the character is `#` exactly when the ray hits and `.` exactly when it misses |
| Render.ColorRay | src/main.rs:500-506 | `color_ray` is a one-character string holding the pixel's character |
| Render.ColorRayHit | src/main.rs:500-506 | `color_ray` returns `"#"` exactly on a hit and `"."` exactly on a miss |
| Render.PixelRay | src/main.rs:549-557 | the ray through pixel `(i, j)` starts at the camera, and at parameter 1 reaches the pixel's centre `pixel00 + i du + j dv` |
| Render.PixelRayNeighbours | src/main.rs:549-557 | neighbouring pixels' ray directions differ by one pixel step, horizontally or vertically |
| Render.PixelRayOrigin | src/main.rs:549-557 | the ray through pixel (0, 0) reaches `pixel00_loc` at parameter 1 |
| Render.PixelCenter | src/main.rs:549-551 | `pixel00 + i du + j dv`; `PixelRay` and `PixelRayNeighbours` state its use |
| Render.Picture | src/main.rs:547-558 | the character of every pixel; `PictureAt` and `PictureAlphabet` state its meaning |
| Render.PictureAt | src/main.rs:547-561 | the picture at `(i, j)` is `#` exactly when the ray through pixel `(i, j)` hits the triangle |
| Render.RowText | src/main.rs:548-559 | a row of `n` pixels is `n` characters long |
| Render.RowChars | src/main.rs:548-559 | column `i` of a row is the picture's character at `(i, j)` |
| Render.FrameText | src/main.rs:547-561 | the rows of a frame, each followed by a newline; `FrameLength`, `FramePrefix` and `FrameAlphabet` state its shape |
| Render.CameraFrame | src/main.rs:547-561 | the frame the camera shows of a triangle; `RenderFrame` states that the loops produce it |
| Render.FrameLength | src/main.rs:547-561 | a frame of `m` rows of `w` pixels is `m * (w + 1)` characters long, newlines included |
| Render.FramePrefix | src/main.rs:547-561 | the first `j` rows of a frame are a prefix of every longer frame |
| Render.FrameAt | src/main.rs:547-561 | in the printed frame, the character at `j * (w + 1) + i` is the picture's character at `(i, j)` for `i < w` and the row's newline for `i == w` |
| Render.FrameAlphabet | src/main.rs:547-561 | a frame holds only `#`, `.` and newlines |
| Render.PictureAlphabet | src/main.rs:500-506 | every pixel of the picture is `#` or `.` |
| Render.RangeLength | src/main.rs:547-548 | `0..n` takes `n` steps, or none when `n` is not positive |
| Render.RenderFrame | src/main.rs:547-561 | the nested row and column loops produce exactly the camera's frame of the triangle |
| Render.Configure | src/main.rs:510-515 | the set-up keeps the camera valid; sets the width to the terminal's columns cast to `i32`, the terminal's aspect ratio, focal length 1.5 and the stretch `(0.5, 1.0)`; keeps position and viewport height; and then, over the reals and when the columns are at most `i32::MAX`, has as many rows as the terminal has lines (capped at `i32::MAX`) |
| Render.TerminalRows | src/camera.rs:92-97 | over the reals, for at most `i32::MAX` columns, an image as wide as the terminal, with the terminal's aspect ratio, has as many rows as the terminal has lines, up to `i32::MAX` |
| Render.SceneTriangle | src/main.rs:528-543 | the starting triangle is a well-formed triangle |
| Render.SceneCentre | src/main.rs:528-543 | its centre is `(0, -1/6, -1)` |
| Render.EulerAfter | src/main.rs:518-526 | the Euler angles after `n` frames; `EulerAfterIsMultiple` states their value and `Run` that the loop computes them |
| Render.EulerAfterIsMultiple | src/main.rs:518-526 | after `n` frames every Euler component is `n * 0.015` |
| Render.TriangleAfter | src/main.rs:562-565 | the triangle after `n` turns; `TriangleAfterKeepsCenter` and `SceneCentreStays` state what it keeps, and `Run` that the loop computes it |
| Render.TriangleAfterKeepsCenter | src/main.rs:562-565 | every frame's triangle is a well-formed triangle with the starting centre |
| Render.SceneCentreStays | src/main.rs:562-565 | the scene triangle stays centred on `(0, -1/6, -1)` in every frame |
| Render.Frames | src/main.rs:546-567 | the first `n` passes print `n` frames |
| Render.FramesAt | src/main.rs:546-567 | frame `k` pictures the triangle after `k` turns |
| Render.Run | src/main.rs:518-567 | `n` passes of the loop print `Frames(n)` and leave the Euler angles and the triangle as `EulerAfter(n)` and `TriangleAfter(n)` |
| Scene.EdgeTestByValues | src/object.rs:55-83 | once the determinant and barycentric checks pass, the test's verdict is `t > EPSILON` |
| Scene.AheadAccepted | src/object.rs:55-83 | given cross and dot products that make the test's `det = 1`, `u = v = 1/4` and `t = 1` (those of the ray straight ahead), the edge test accepts |
| Scene.BehindRejected | src/object.rs:55-83 | given products that make `det = -1`, `u = v = 1/4` and `t = -1` (those of the ray straight behind), the edge test rejects |
| Scene.AheadCoordinates | src/main.rs:528-557 | on the starting triangle's vertices, the ray from the origin along `(0, 0, -1)` has determinant 1 and meets the plane at `u = v = 1/4`, `t = 1` |
| Scene.BehindCoordinates | src/main.rs:528-557 | on the same vertices, the ray along `(0, 0, 1)` has determinant -1 and meets the plane at `u = v = 1/4`, `t = -1` |
| Scene.SceneHitAhead | src/main.rs:528-557 | the ray from the camera straight ahead along `(0, 0, -1)` hits the starting triangle |
| Scene.SceneMissBehind | src/main.rs:528-557 | the ray straight behind along `(0, 0, 1)` misses it |

## Left out

- Floating point: every `f64` is a real number with no rounding, NaN or infinity.
- `sin` and `cos` come from Rust's standard library. Here they are parameters, and the lemmas assume only the identities they name.
- Cameras.CastToI32: models `as i32` only on non-negative finite values. There it truncates and saturates at `i32::MAX`; NaN and negative inputs cannot reach it in the model.
- Cameras.Camera.Update, Cameras.ImageHeightFor and Cameras.ImageHeightIsClampedFloor: require the width in `1..=i32::MAX` and a positive aspect ratio, so a zero or negative width or ratio is not modelled. Of these, only a zero width or a zero ratio makes the source divide by zero. A negative width or ratio gives a finite negative quotient, which `as i32` turns into a non-positive height that the clamp raises to 1. The model leaves them out because `main` only sets widths of at least one column and the positive ratio columns/lines, and `CastToI32` is modelled on non-negative quotients only.
- Cameras.Camera.SetWidth: requires a width in `1..=i32::MAX`; widths of zero or less are not modelled, as for `Update`.
- Cameras.Camera.SetAspectRatio: requires a positive ratio; a zero or negative ratio is not modelled, as for `Update`.
- Cameras.Camera.constructor: sets each field to the value that the formulas of `new` take at the default inputs, rather than evaluating the formulas in the body. `DefaultsValid`, `DefaultHeight` and `DefaultUpperLeft` prove those values equal to the formulas; the constructor's contract states the values and the class invariant.
- The camera getters (`image_height`, `image_width`, `pixel00_loc`, `pixel_delta_u`, `pixel_delta_v`, `camera_pos`, src/camera.rs:158-175) are plain field reads with nothing to state, and `main` reads the fields directly; the model does the same. `Quaternion::new` is the datatype constructor.
- `update` without a stretch does not recompute the upper-left corner. The corner keeps the value computed by `new`, so the focal length and position stop mattering. This is the source's behaviour, and the model shows it: `SetFocalLength` does not move pixel (0, 0) then.
- The `sqrt` computed and discarded in `new_from_point` (`src/rotation.rs:17`) is gone. So is the third solution component `intersection_point` of the triangle test, which is never read.
- Render.Configure: starts from a given valid camera rather than `Camera::new()`. The constructor's own contract describes `Camera::new()`. The two compose as `main` does; no single member states the composed camera.
- Render.Configure / Render.TerminalRows: the row count equals the line count only over the reals. In `f64` the ratio `columns / lines` is rounded, and `columns / ratio` can then land just below `lines` (46 columns by 21 lines gives 20.999999999999996), which `as i32` truncates: `main` may then draw one row fewer than the terminal has lines. The model has no rounding and does not show this.
- Render.Configure: requires at least one column and one line. A zero-sized terminal gives the `f64` ratios `0/0` and `n/0`, which are outside this model.
- `Terminal::new`, which reads the terminal size, is left out: its columns and lines are parameters of `Configure`. src/terminal.rs and src/input_handler.rs are not part of this model.
- Printing is represented by the strings printed, and `thread::sleep` by nothing. The debug print of the camera is left out.
- Render.Run: models the endless `loop` as its first `n` passes. It takes the starting triangle as a parameter; `SceneTriangle` is the one `main` builds.
- The code that `src/main.rs` repeats from the other files is modelled once. This covers its quaternion, vector, ray, triangle and camera code. Its triangle type is the triangle case of `Object`.
- Scene.SceneHitAhead and Scene.SceneMissBehind: show the scene for two rays, not for every pixel of a concrete terminal.
- The coordinates `det`, `u`, `v`, `t` of those two rays are stated on the scene's literal vertices (`AheadCoordinates`, `BehindCoordinates`), not on the `Object` value `SceneTriangle()`; the hit verdicts are stated on both.
- No lemma evaluates a concrete sphere, such as the unit sphere at `(0, 0, -5)` seen from the origin along `(0, 0, -1)`, `(0, 0, 1)` and `(1, 0, 0)`. `SphereHitClosestPoint`, `SphereHitGeometric` and `SphereHitIgnoresDirectionSign` decide every such case, and `main` draws no sphere.
