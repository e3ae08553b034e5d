# mark: the annotation engine, modelled in Dafny

`mark` is a small screen-annotation program (`src/main.c`). It loads an
image, shows it in a window, and lets the user draw freehand strokes or
rectangle outlines on it with the mouse. Enter exports the result to the
clipboard. Escape quits.

This project models the engine behind that, with the window left out:

- `Raster.dfy` models the pixel buffer (`w*h` pixels of four bytes each, row
  after row) and its one write, `set_pixel_bgra`.
- `Channels.dfy` models the in-place swap of bytes 0 and 2 of every pixel. It
  runs once after loading (codec order to display order) and once before
  export (back again).
- `Line.dfy` models `draw_line_buffer`: an integer Bresenham walk that stamps
  a 3x3 block of ink at every point it visits.
- `Rect.dfy` models the rectangle commit done on button release.
- `Session.dfy` models the event loop's state (`mode`, `drawing`, `last_x/y`,
  `start_x/y`) and how press, motion, release and key events change it. It
  also proves what a whole session writes into the image.

Every drawing operation writes the same opaque colour. So the effect of any
operation on the buffer is fully described by the set of points it paints.
`Raster.Fill(s, w, h, pts, c)` is that description: the buffer `s` with
colour `c` at every in-bounds pixel of `pts`, and every other byte as it was.
Points outside the image have no bytes, so they are dropped automatically,
just as the source drops them. Each method is proved against `Fill` with a
specific point set, such as a brush footprint or a rectangle outline, and
that set is then described by lemmas.

`Line.LinePath` gives the walk of `draw_line_buffer` as a sequence. It is
computed by the loop's own step function, `Line.Next`. The loop invariant
`Line.OnWalk` states the error term in terms of the distance still to go on
each axis. This fact gives termination, the exact end point, and steps of
at most one unit per axis. `Line.DrawLine` is the C loop itself, proved to
paint exactly `Brush(LinePath(...))`.

The event loop is specified twice:

- `Session.Step` is a pure function: one pass of the loop on a state value.
- `Session.Annotator` is a class whose handlers update their fields and the
  image array in place. Each handler is proved to end in the state that
  `Step` gives.

Two behaviours of the code are worth knowing before reading the lemmas:

- **The mode is read at each event, not fixed at the press.** The code
  reads `mode` at every motion (`src/main.c:112`) and again at release
  (`src/main.c:119`). Pressing in draw mode, typing `2` and releasing
  therefore commits a rectangle; see `Session.ModeReadAtRelease` and
  `Session.ModeReadAtMotion`.
- **The four outermost corner pixels of a rectangle are not painted.** The
  commit loops leave out `(xmin-1, ymin-1)` and the three other outer
  corners (see `Rect.OutlineExtent`). A rectangle whose two corners are the
  same point paints a five-pixel plus sign, not a 3x3 block
  (`Rect.PointOutline`). The outline is still connected around the
  rectangle (`Rect.OutlineClosed`).

## Model

| member | source | states |
|---|---|---|
| Raster.Fill | src/main.c:14-21 | the buffer after any series of `set_pixel_bgra` writes of one colour at a set of points; it keeps the buffer length, and `FillAt`, `FillOutside`, `FillUnion` and `FillFrame` give its bytes, its clipping, its order-independence and its frame |
| Raster.SetPixel | src/main.c:14-21 | a write at (x, y) paints that one pixel with bytes 0,0,255,255 when it lies in the image and changes nothing otherwise; the four bytes start at `(y*w+x)*4`, lie in the buffer, and no other byte changes |
| Raster.OffsetInBuffer | src/main.c:16 | for an in-bounds pixel the index `(y*w+x)*4 + k`, k < 4, lies in `[0, w*h*4)`, and byte k of the pixel maps back to (x, y) at channel k |
| Raster.PixelOfInBuffer | src/main.c:16 | every byte `i` of a `w*h*4` buffer is channel `i % 4` of the in-bounds pixel `PixelOf(w, i)` |
| Raster.PixelOfUnique | src/main.c:16 | no other in-bounds pixel or channel owns that byte: if `(y*w+x)*4 + k == i` with (x, y) in the image and k < 4, then (x, y) is `PixelOf(w, i)` and k is `i % 4` |
| Raster.FillAt | src/main.c:17-20 | after painting, byte k of an in-bounds pixel is byte k of the colour when the pixel is painted, and its old value otherwise |
| Raster.FillOutside | src/main.c:15 | painting only points outside the image, or no points, leaves the buffer exactly as it was |
| Raster.FillUnion | src/main.c:17-20 | two rounds of painting with one opaque colour equal one round over the union of the point sets, so the order of the writes does not matter |
| Raster.FillFrame | src/main.c:14-21 | any byte that differs after painting belongs to a painted pixel inside the image |
| Channels.SwapRB | src/main.c:50-54 | the buffer after the swap loop, of the same length; `SwapRBAt` gives its bytes pixel by pixel and `SwapRBInvolution` shows the export swap undoes it |
| Channels.SwapChannels | src/main.c:50-54 | the in-place loop leaves the buffer equal to `SwapRB` of its old contents |
| Channels.SwapRBAt | src/main.c:51-53 | in every pixel, bytes 0 and 2 change places and bytes 1 and 3 stay |
| Channels.SwapRBInvolution | src/main.c:94-98 | the export swap undoes the load swap byte for byte |
| Channels.InkExportsAsRed | src/main.c:17-20 | the ink 0,0,255,255 in display order is red 255,0,0,255 in export order, and the other way round |
| Channels.SwapRBFill | src/main.c:94-98 | swapping a painted buffer is the same as painting the swapped buffer with the swapped colour |
| Channels.LoadAnnotateExport | src/main.c:50-98 | load swap, then painting with ink, then export swap gives the original image with red at the painted pixels and every other byte as loaded |
| Line.Start | src/main.c:25-27 | the loop variables before the first pass: the start point and `err = dx + dy`; `StartOnWalk` shows they satisfy the walk invariant |
| Line.Next | src/main.c:33-35 | one pass of the loop after the end test; `PassArith` and `NextStep` show it keeps the invariant, moves towards the end point and is one `Advance` step |
| Line.Walk | src/main.c:28-36 | the points the loop visits from a cursor within a budget of passes; see `WalkEnds`, `WalkSteps`, `WalkLength` and `WalkInBox` |
| Line.LinePath | src/main.c:24-36 | the points the loop visits from (x0, y0); see `LineEndpoints`, `LineConnected`, `LineLength`, `LineInBox` and `LineDegenerate` |
| Line.StartOnWalk | src/main.c:25-27 | the initial `err = dx + dy` satisfies the walk invariant, with the full distance still to go on both axes |
| Line.NoStepPastX | src/main.c:34 | once x has reached x1 the x test `e2 >= dy` fails |
| Line.NoStepPastY | src/main.c:35 | once y has reached y1 the y test `e2 <= dx` fails |
| Line.PassArith | src/main.c:33-35 | one pass moves an axis only while distance remains on it, moves at least one axis, and the updated error term again fits the distances left |
| Line.NextStep | src/main.c:33-35 | away from the end point one pass keeps the invariant, strictly decreases the distance left, and moves each coordinate by 0 or by sx / sy without standing still |
| Line.WalkEnds | src/main.c:28-36 | with a budget at least the distance left the walk starts at the cursor and ends at (x1, y1): the loop terminates there |
| Line.WalkSteps | src/main.c:33-35 | each consecutive pair of visited points is one step of the loop |
| Line.WalkLength | src/main.c:28-36 | the walk visits between max(a, b) + 1 and a + b + 1 points for remaining distances a, b |
| Line.WalkInBox | src/main.c:28-36 | no visited point overshoots the end point on either axis |
| Line.LineEndpoints | src/main.c:24-37 | the first point visited is (x0, y0) and the last is (x1, y1) |
| Line.LineConnected | src/main.c:25-35 | consecutive visited points differ by 0 or sx in x and 0 or sy in y, and are distinct 8-neighbours: the path has no gaps |
| Line.LineLength | src/main.c:25-36 | the walk visits between max(dx, dy) + 1 and dx + dy + 1 points |
| Line.LineInBox | src/main.c:25-36 | every visited point lies in the bounding box of the two endpoints |
| Line.LineDegenerate | src/main.c:32 | with equal endpoints the walk is the single point |
| Line.BrushSnoc | src/main.c:29-31 | stamping one more point adds exactly its 3x3 block |
| Line.BrushMember | src/main.c:29-31 | a point is painted by the brush iff some visited point is within one unit of it on both axes |
| Line.BrushFill | src/main.c:29-31 | painting the brush of a path, then one stamp, paints the brush of the longer path |
| Line.EndpointsPainted | src/main.c:24-37 | after drawing, every in-bounds pixel of the 3x3 neighbourhood of either endpoint holds the ink |
| Line.DegenerateLinePaintsStamp | src/main.c:29-32 | with equal endpoints exactly the 3x3 block around the point is painted |
| Line.StampColumn | src/main.c:30-31 | the inner loop paints (x, y-1), (x, y), (x, y+1) and nothing else |
| Line.StampAt | src/main.c:29-31 | the two nested loops paint exactly the 3x3 block centred on (x, y) |
| Line.DrawLine | src/main.c:24-37 | the loop terminates and paints exactly the brush footprint over the walk from (x0, y0) to (x1, y1), clipped to the image |
| Rect.Normalize | src/main.c:120-123 | the bounds are ordered and are the two given corners, per axis |
| Rect.Outline | src/main.c:120-129 | the points the two commit loops paint; see `OutlineMember`, `OutlineSymmetric`, `OutlineClosed`, `OutlineExtent` and `PointOutline` |
| Rect.OutlineMember | src/main.c:124-129 | a point is in the outline iff it is within one row of the top or bottom edge over the rectangle's columns, or within one column of the left or right edge over its rows |
| Rect.OutlineSymmetric | src/main.c:120-123 | the outline does not depend on which pair of opposite corners is given or in which order |
| Rect.OutlineClosed | src/main.c:124-129 | every point of the four edges, corners included, is painted together with its neighbours across the edge |
| Rect.OutlineExtent | src/main.c:124-129 | nothing is painted more than one unit outside the rectangle or more than one unit inside its edges, and the four outer corner pixels stay unpainted |
| Rect.PointOutline | src/main.c:120-129 | a rectangle whose corners coincide paints a five-pixel plus sign |
| Rect.SpanPartGrows | src/main.c:125 | the offsets -1 .. t of a 3-pixel run are the offsets -1 .. t-1 plus the pixel at offset t |
| Rect.PaintSpanPair | src/main.c:125 | one pass of the inner loop paints the two 3-pixel runs, vertical in the first loop and horizontal in the second |
| Rect.PaintRows | src/main.c:124-126 | the first loop paints the bands of height 3 on rows ymin and ymax over the columns xmin..xmax |
| Rect.PaintColumns | src/main.c:127-129 | the second loop paints the bands of width 3 on columns xmin and xmax over the rows ymin..ymax |
| Rect.CommitRect | src/main.c:118-129 | the commit paints exactly the outline of the two corners, clipped to the image |
| Session.Initial | src/main.c:73 | the loop starts in draw mode, with no gesture in progress, on the loaded buffer |
| Session.Step | src/main.c:88-131 | one pass of the loop keeps the buffer length, and ends the loop exactly on Enter or Escape |
| Session.PaintedBy | src/main.c:112-130 | the points one event paints: the stroke for a motion during a draw gesture, the outline for a release during a rectangle gesture, nothing otherwise; `StepPaints` shows it is all `Step` writes |
| Session.StepPaints | src/main.c:112-130 | every event except Enter changes the buffer only by painting ink at the points `PaintedBy` names |
| Session.KeysOnlyChangeMode | src/main.c:90-91 | keys 1 and 2 set the mode and change nothing else, including a gesture in progress |
| Session.ToolsAreSeparate | src/main.c:112-119 | motion paints nothing in rectangle mode or outside a gesture; release paints nothing in draw mode or outside a gesture |
| Session.DrawingFlag | src/main.c:106-131 | press sets the gesture flag, release clears it, and no other event touches it |
| Session.PositionsUnreadWhenIdle | src/main.c:73 | the positions, uninitialised in the source, do not affect the buffer, mode, flag or quit decision until a press sets them |
| Session.Run | src/main.c:76-134 | the loop over a sequence of events, stopping at the first that ends it; it keeps the buffer length, and `RunCons`, `RunThen`, `RunPaints` and `SessionExport` give its steps and what it writes |
| Session.Traced | src/main.c:76-134 | every point painted during a run up to the event that ends it; `RunPaints` shows the run's buffer is one fill of these points |
| Session.RunPaints | src/main.c:76-134 | until Enter, a run of the loop only adds ink: its buffer is one fill of all the points traced |
| Session.RunThen | src/main.c:76-134 | a run not yet ended, extended by one event, is one more step |
| Session.SessionExport | src/main.c:50-101 | load, any annotation events, then Enter: the loop ends, and the exported buffer is the loaded image with red at every traced pixel inside it and every other byte unchanged |
| Session.EscapeDiscards | src/main.c:103 | Escape ends the loop and leaves the state unchanged |
| Session.RunCons | src/main.c:76-77 | a run is its first step followed by the run of the rest, unless that step ends the loop |
| Session.ClickWithoutMotion | src/main.c:106-131 | a press and a release without motion in draw mode leave the buffer unchanged |
| Session.DotGesture | src/main.c:106-131 | press, motion onto the same pixel, release in draw mode paint exactly the 3x3 block around it |
| Session.MotionsIdle | src/main.c:112 | in rectangle mode any sequence of pointer motions leaves the whole state unchanged and does not end the loop |
| Session.RectangleGesture | src/main.c:106-131 | in rectangle mode, a press, any number of motions (none included) and a release paint exactly the outline of the press and release corners |
| Session.ModeReadAtRelease | src/main.c:118-119 | press in draw mode, key 2, release: the rectangle is committed, because the mode is read at release |
| Session.ModeReadAtMotion | src/main.c:112 | press in rectangle mode, key 1, motion, release: a stroke from the press point is drawn and no outline |
| Session.Annotator.constructor | src/main.c:50-54 | the loaded image is converted in place to display order, and the loop state starts as `Initial` |
| Session.Annotator.OnPress | src/main.c:106-110 | a press leaves the object in the state `Step` gives |
| Session.Annotator.OnMotion | src/main.c:112-116 | a motion draws the segment from the last position when a gesture is in progress in draw mode, as `Step` gives |
| Session.Annotator.OnRelease | src/main.c:118-131 | a release commits the rectangle in rectangle mode and ends the gesture, as `Step` gives |
| Session.Annotator.OnKey | src/main.c:88-104 | a key updates the mode or converts the buffer for export, and reports quitting, as `Step` gives |
| Session.Annotator.Handle | src/main.c:88-131 | one pass of the loop routes the event to its handler and ends in the state and quit decision `Step` gives |
| Session.Annotator.HandleAll | src/main.c:76-134 | the loop over a sequence of events stops at the first one that ends it, and leaves the object in the state, with the quit decision, that `Run` gives |

## Left out

- The X11 display is not modelled. This covers the window, graphics context, colour allocation, `XNextEvent`, and the image blits at `src/main.c:56-71`, `79-80` and `132-136`. Events become values of `Session.Event`.
- The live rectangle preview (`src/main.c:81-85`) draws on the window, not on the buffer. The model keeps only its effect on the buffer, which is none (`Session.ToolsAreSeparate`).
- Image decoding and PNG encoding (`stbi_load`, `stbi_write_png`) are a foreign codec library. The loaded image is a given array of `w*h*4` bytes, and export is the buffer after the export swap.
- The clipboard shell-out (`xclip`, `src/main.c:100`) and the temporary file are not modelled.
- Argument parsing (`src/main.c:40-43`) and the failed-load exit (`src/main.c:47`) are process plumbing.
- Mouse buttons are not distinguished, because the source does not distinguish them either.
- Only the keys 1, 2, Enter and Escape are modelled; every other key is `OtherKey`.
- Integers are mathematical. C `int` overflow in `(y*w+x)*4`, `w*h*4` and `2*err` is not modelled. Every buffer is required to satisfy `w > 0`, `h > 0` and length `w*h*4`.
- Session.Initial: the source leaves `last_x`, `last_y`, `start_x` and `start_y` uninitialised, and the model starts them at 0. `Session.PositionsUnreadWhenIdle` shows that the value is never observed.
- Line.DrawLine: the walk is the total function `Walk` with a step budget. `WalkEnds` proves that the budget `LinePath` gives, `|x1-x0| + |y1-y0|`, always suffices to reach the end point.
- Rect.PaintRows: requires `xmin <= xmax`, which the commit guarantees by normalising first.
- Rect.PaintColumns: requires `ymin <= ymax`, which the commit guarantees by normalising first.
