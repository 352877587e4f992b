# Polygon generator — a Dafny model

This project models the core of a small Python tool that draws random convex
and concave polygons into images and saves them into folders:

- the `PolygonGenerator` state record (height, width, background and shape
  colours, bezels, vertex count, vertex list, image) with its `reset`,
  `reset_image`, setters, `generate_n_random_points`, `generate_polygon` and
  `invert_image_colours`;
- the hull-completion loop of `ConvexPolygonGenerator.draw_polygon` and the
  `clockwise` ordering of `ConcavePolygonGenerator.draw_polygon`;
- the `Folder` constructor's rename-on-collision loop, its getters and
  setters, `add_child`, and the file paths built by both
  `save_image_to_folder`s.

Every Python method becomes a function from the old state to a result that
holds the new state. Exceptions become `Err` values (`Outcomes.GenError`,
`FolderManager.FolderError`). The things the code does not compute itself
are parameters:

- `random.randint(lo, hi)` reads one natural `d` from an arbitrary stream
  `draw: nat -> nat` and yields `lo + d % (hi - lo + 1)`. An empty range
  raises, as `randint` does. `RandIntReaches` and `SampleReaches` show that
  this stream loses none of the choices `randint` has.
- `cv2.convexHull` is an arbitrary total function `hull` on point sequences.
  Where a property needs "a hull is made of its input's points", that
  assumption is a `requires`.
- The angle `np.arctan2` gives each point about the centroid is an arbitrary
  integer key `angle(points, p)`. Only its order matters.
- `os.makedirs` is a set of existing paths. The tkinter yes/no dialog is a
  boolean.
- The filled contour is not rasterised. A drawn image is the freshly reset
  canvas together with the contour and the ink colour (`Picture.Filled`).

Modules: `Outcomes` (result type, errors), `Geometry` (points, colours,
images), `Canvas`, `RandomOracle`, `PointSampler`, `ClockwiseOrder`,
`ConvexCompletion`, `PolygonGenerator` and `FolderManager`.

Behaviour of the code that the model keeps on purpose:

- `generate_n_random_points` turns the vertex list into a numpy array. A
  second call that has points to add, made without a `reset` in between,
  fails on `.append`. `Vertices.Packed` models the array and `NoAppend` the
  `AttributeError`.
- `draw_polygon` resets the generator again. So after `generate_polygon` the
  vertex list is empty again, and the picture holds the only copy of the
  contour.
- The convex loop targets `number_of_vertices + 1` hull points. That is one
  more than the number of sides the comment asks for. The model keeps the
  target as written.
- The code validates nothing up front. There is no dedicated error for an
  empty sampling range, for too few vertices or for a hull that overshoots.
  What fails is `randint`, `np.zeros` or the index in `clockwise`, and an
  overshooting hull loops forever. The model keeps these failure points
  rather than an idealised error taxonomy.
- `range(n)` with `n <= 0` runs no iteration. Such an `n` samples no points
  and makes `clockwise` return an empty contour.

## Model

| member | source | states |
|---|---|---|
| Canvas.ResetImage | polygon_generator/polygon_generator.py:48-63 | a negative height or width fails as `np.zeros` does; otherwise the buffer has height rows of width pixels, each pixel's three channels equal to the background colour's in order |
| Canvas.FillBackground | polygon_generator/polygon_generator.py:55-59 | the nested row/column loop yields a uniform background buffer of the requested shape, equal to the reference canvas `BlankImage` |
| Canvas.UniformUnique | polygon_generator/polygon_generator.py:48-63 | two buffers of the same shape, filled with the same colour, are equal, so a canvas does not depend on how it was filled |
| Canvas.Complement | polygon_generator/polygon_generator.py:176 | `~v` on a uint8 channel is `255 - v` |
| Canvas.InvertImage | polygon_generator/polygon_generator.py:173-177 | the inverted image has the same shape, and every channel of every pixel is 255 minus the original |
| Canvas.InvertInvolution | polygon_generator/polygon_generator.py:173-177 | inverting twice returns the original image |
| Canvas.InvertUniform | polygon_generator/polygon_generator.py:173-177 | a canvas of one colour inverts to the canvas of the complementary colour |
| RandomOracle.RandInt | polygon_generator/polygon_generator.py:122-123 | `randint(lo, hi)` succeeds iff lo <= hi, and then lies in the inclusive range [lo, hi] |
| RandomOracle.RandIntReaches | polygon_generator/polygon_generator.py:122-123 | every value of the inclusive range is a possible outcome |
| PointSampler.SamplePoints | polygon_generator/polygon_generator.py:121-124 | n iterations give exactly max(n, 0) points, each in [1, xHi] x [1, yHi]; they fail iff n > 0 and a range is empty; point k comes from draws 2k (x) and 2k+1 (y) |
| PointSampler.SampleReaches | polygon_generator/polygon_generator.py:121-124 | every sequence of in-box points is a possible sample, so the bounds are exact in both directions |
| ClockwiseOrder.Insert | polygon_generator/polygon_generator.py:263 | inserting into a non-increasing sequence keeps it non-increasing and adds exactly the new point to its multiset |
| ClockwiseOrder.SortDescending | polygon_generator/polygon_generator.py:263-265 | `argsort()[::-1]` reorders the points into non-increasing angle order, as a permutation |
| ClockwiseOrder.Clockwise | polygon_generator/polygon_generator.py:257-273 | fails with an index error iff n exceeds the number of points; otherwise returns max(n, 0) input points, a sub-multiset of the input, in non-increasing angle order |
| ClockwiseOrder.PrefixOfPermutation | polygon_generator/polygon_generator.py:264-269 | the first m points of a reordering are drawn from the original points |
| ClockwiseOrder.ClockwiseKeepsLargest | polygon_generator/polygon_generator.py:263-269 | the kept points have angles at least those of every dropped point |
| ClockwiseOrder.ClockwiseAllIsPermutation | polygon_generator/polygon_generator.py:257-273 | with n equal to the number of points the contour is a permutation of the input |
| ConvexCompletion.Step | polygon_generator/polygon_generator.py:208-217 | a short hull gets exactly `needed - len(hull)` new points in [1, width] x [1, height], appended after the old ones, and is recomputed; a hull at least `needed` long leaves the state unchanged |
| ConvexCompletion.Complete | polygon_generator/polygon_generator.py:203-217 | if the loop exits, the hull has exactly `needed` points; the original points stay a prefix; every added point lies in the image box; the kept hull is the hull of all points |
| ConvexCompletion.ExtendsTransitive | polygon_generator/polygon_generator.py:212-216 | points appended in two rounds are appended in one, in the same box |
| ConvexCompletion.OvershootNeverExits | polygon_generator/polygon_generator.py:207-217 | a first hull longer than `needed` is a fixed point: the loop does not exit for any number of rounds |
| ConvexCompletion.ExitedHullFromPoints | polygon_generator/polygon_generator.py:203-217 | if the hull routine returns input points, an exited loop's hull consists of original or injected points |
| PolygonGenerator.Init | polygon_generator/polygon_generator.py:19-42 | a new generator has a white background, black shape colour, no bezels, an empty vertex list and a blank canvas; negative dimensions fail |
| PolygonGenerator.Reset | polygon_generator/polygon_generator.py:44-46 | reset empties the vertex list and rebuilds the blank canvas; every configuration field is unchanged |
| PolygonGenerator.ResetIdempotent | polygon_generator/polygon_generator.py:44-63 | resetting twice gives the same generator as resetting once |
| PolygonGenerator.SetShapeColour | polygon_generator/polygon_generator.py:65-73 | changes the shape colour and no other field |
| PolygonGenerator.SetBackgroundColour | polygon_generator/polygon_generator.py:75-83 | changes the background colour and no other field (the image is not redrawn) |
| PolygonGenerator.SetNumberOfVertices | polygon_generator/polygon_generator.py:85-88 | changes the vertex count and no other field |
| PolygonGenerator.SetImageHeight | polygon_generator/polygon_generator.py:90-93 | changes the height and no other field |
| PolygonGenerator.SetImageWidth | polygon_generator/polygon_generator.py:95-98 | changes the width and no other field |
| PolygonGenerator.SetHeightBezels | polygon_generator/polygon_generator.py:100-103 | changes the height bezels and no other field |
| PolygonGenerator.SetWidthBezels | polygon_generator/polygon_generator.py:105-108 | changes the width bezels and no other field |
| PolygonGenerator.GenerateNRandomPoints | polygon_generator/polygon_generator.py:110-131 | with the count defaulting to the vertex count, appends max(n, 0) points inside the bezels after the existing ones and stores them as an array; an empty range or an append to an array fails |
| PolygonGenerator.CountOrDefault | polygon_generator/polygon_generator.py:118-119 | a given count is used as is; a missing one is the configured number of vertices |
| PolygonGenerator.DefaultCountFollowsSetter | polygon_generator/polygon_generator.py:118-119 | after `set_number_of_vertices(k)` a missing count resolves to k, a given one to itself |
| PolygonGenerator.SampleFromReset | polygon_generator/polygon_generator.py:110-131 | from an empty vertex list (whatever else the generator holds) the result is exactly the requested number of points, each with 1 <= x <= width - width_bezels and 1 <= y <= height - height_bezels |
| PolygonGenerator.DrawPolygon | polygon_generator/polygon_generator.py:191-285 | the base class fails; a finished draw keeps the configuration, empties the vertex list and fills a contour on a fresh background canvas in the shape colour; a concave draw succeeds iff the count fits and gives a non-increasing sub-multiset of the points; a convex contour has count + 1 points and is the hull of the round at which the completion loop exited, a round reached from the given points by adding points of the whole image |
| PolygonGenerator.GeneratePolygon | polygon_generator/polygon_generator.py:160-171 | a finished generation keeps the configuration, leaves an empty vertex list and stores a contour filled on a fresh background canvas in the shape colour; the base class never finishes; a concave contour has max(n, 0) points, all inside the bezels; a convex contour has n + 1 points |
| PolygonGenerator.ConvexContourIsExitHull | polygon_generator/polygon_generator.py:160-171 | a finished convex generation fills the hull the completion loop exited with, where the loop started from exactly the sampled points and the stream position after them |
| PolygonGenerator.SampledFromEmpty | polygon_generator/polygon_generator.py:110-131 | sampling into an empty vertex list succeeds only when the sampler does, and then yields exactly the sampler's points and stream position |
| PolygonGenerator.GenerateDrawsSample | polygon_generator/polygon_generator.py:160-171 | after the reset, the points sampled from the empty vertex list are exactly the sampler's points, and they are what gets drawn with the resolved count |
| PolygonGenerator.ConcaveDrawKeepsAll | polygon_generator/polygon_generator.py:244-285 | a concave draw given exactly as many points as requested succeeds and keeps all of them |
| PolygonGenerator.ConcaveContourIsPermutation | polygon_generator/polygon_generator.py:160-171 | on the concave generation path the contour is a permutation of the sampled points, and no index error occurs |
| PolygonGenerator.ConvexOvershootNeverFinishes | polygon_generator/polygon_generator.py:203-217 | if the first hull has more than n + 1 points, a convex draw never finishes |
| PolygonGenerator.InvertResetCanvas | polygon_generator/polygon_generator.py:173-177 | inverting a reset canvas gives the canvas of the complementary colour, and inverting again restores it |
| FolderManager.Decimal | polygon_generator/folder.py:43-44 | the index is printed as a non-empty string of decimal digits, one digit below 10 |
| FolderManager.DecimalRoundTrip | polygon_generator/folder.py:43-44 | reading the printed index back yields the index, so the 20 candidate suffixes are distinct |
| FolderManager.MakeDirs | polygon_generator/folder.py:71-74 | creating a path fails iff it already exists; otherwise the path then exists |
| FolderManager.GetName | polygon_generator/folder.py:57-58 | the returned string is the folder's name: writing it back with the setter changes nothing |
| FolderManager.GetPath | polygon_generator/folder.py:60-61 | the returned string is the folder's path: writing it back with the setter changes nothing |
| FolderManager.GetChildren | polygon_generator/folder.py:79-80 | the returned set holds exactly the folders whose adding as a child changes nothing |
| FolderManager.SetName | polygon_generator/folder.py:66-69 | changes the name only |
| FolderManager.SetPath | polygon_generator/folder.py:63-64 | changes the path only |
| FolderManager.AddChild | polygon_generator/folder.py:82-90 | the children grow by exactly the given child; name and path are unchanged |
| FolderManager.AddChildIdempotent | polygon_generator/folder.py:82-90 | adding the same child twice equals adding it once |
| FolderManager.FirstFreeCandidateExists | polygon_generator/folder.py:39-53 | unless all 20 `_copy_(i)` paths exist, exactly one index is the first free candidate, so the constructor's two accepting cases cover every disk |
| FolderManager.NewFolder | polygon_generator/folder.py:25-55 | no collision keeps name and path; a declined collision re-raises; an accepted one uses the first free candidate i in 0..19 for both name and path; a failed candidate is restored, so suffixes never accumulate; when all 20 exist the folder keeps its original name and path and nothing escapes |
| FolderManager.Join | polygon_generator/folder.py:104 | POSIX `os.path.join` ends with the file name and starts with the folder path unless the name is absolute |
| FolderManager.FileName | polygon_generator/folder.py:124 | the file name is the image name, a dot, then the format |
| FolderManager.SaveImageToFolder | polygon_generator/folder.py:110-128 | the saved path ends with `image_name + "." + file_format`, with the format defaulting to `jpg`, inside the folder path |
| FolderManager.SaveImageToFolderOf | polygon_generator/folder.py:92-107 | the method's path ends with `image_name + ".jpg"`, inside the folder's path |
| FolderManager.SaveMethodUsesDefaultFormat | polygon_generator/folder.py:103-125 | the method saves where the module function with its default format would |

## Left out

- Rasterisation by `cv2.drawContours` and `cv2.fillPoly`, and the anti-aliased `LINE_AA` line type, are foreign library code. A drawn image is the reset canvas plus the contour and ink.
- `cv2.convexHull`, `np.mean` and `np.arctan2` are oracles. Floating-point angles are integer keys.
- Tie order: `argsort()[::-1]` may order points with equal angles in any order. `SortDescending` fixes one such order.
- ConvexCompletion.Complete: the source `while True` loop may never end. It is modelled for a bounded number of rounds (`fuel`). A run that has not exited is `Running`/`Unfinished`, and there is no termination claim.
- `len(hull) is needed_hull_length` compares int identity. For counts above CPython's small-int cache it never holds. The model uses integer equality.
- The hull oracle is total. `cv2.convexHull` rejecting an empty point set is not modelled.
- GenerateNRandomPoints: on an exception the model returns only the error. The points appended by earlier iterations, which stay in the Python list, are not modelled.
- Colour tuples are three uint8 channels. Longer tuples, and values outside 0..255 that numpy would reject or wrap, are not modelled.
- FolderManager.NewFolder: only `FileExistsError` from `os.makedirs` is modelled. Other OS errors, intermediate directories, and the tkinter window's lifetime are left out.
- `Folder.children` holds folders by value. Python compares them by identity, so two equal-looking folders are one child in the model.
- `Folder.delete_from_disk` (`shutil.rmtree`) and `cv2.imwrite` are file I/O and are left out. The save functions return only the path.
- FolderManager.Join: the model follows POSIX `os.path.join` (separator `/`, a name starting with `/` replaces the folder path). The GUI targets Windows, where `ntpath` also accepts `\`, treats drive- or backslash-rooted names as absolute and keeps drive letters; those rules are not modelled.
- PolygonGenerator.GenerateNRandomPoints: points are unbounded integers. The `np.int32` conversions of the vertex list and of the concave contour (polygon_generator/polygon_generator.py:126, :270) are not modelled; a width or height of 2^31 or more, which the setters accept, would overflow there (an error or a wrapped value depending on the numpy version).
- The GUI, `setup.py`, `test()` and `generate_n_sided_polygons` are drivers around I/O.
