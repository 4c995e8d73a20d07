# 3DRendering: a verified model of the software renderer's core

This project models, in Dafny, the core of a small CPU-side 3D renderer
written in Rust:

- **Mesh loading** (`src/obj.rs`). Each loaded model's flat position, normal and
  texture-coordinate lists are grouped into 3- and 2-vectors. The models are
  merged in order. `get_vertex_array` then turns the index list into a vertex list.
- **The render pass** (`src/render.rs`). For every object it runs the vertex
  shader over the vertex array and splits the shaded vertices into chunks of
  three. Each triangle is rasterized into fragments, and the fragments are
  painted one by one into the framebuffer.
- **Fragment assembly** (`src/fragment.rs`). `line` walks an edge by a
  parameter that starts at 0 and grows by `1.0e-3` while it is at most 1.
  `triangle` concatenates its three edges.
- **The vertex record** (`src/vertex.rs`), with its constructors and
  `set_transformed`.
- **The application state machine** (`src/main.rs`):
  - the `Model` record and the `Message` reducer `update`;
  - the key-to-message mapping;
  - the per-frame message fold;
  - the saturating splash and cooldown timers;
  - the 60-entry window of frame times;
  - `init`.

Rust panics (`unwrap` on `None`, an index past the end of a slice) are values
of `Outcomes.Outcome`, not preconditions. So every contract also says when
the code panics.

Some operations change state in place, and these are imperative Dafny:
- the `line` loop (`Fragments.Line`);
- the model fold in `load` (`Objs.Load`);
- the render loops (`Render.Render` and its helpers);
- the framebuffer (`Framebuffers.Framebuffer`, a class);
- the main loop (`MainLoop.FrameLoop`, a class).

Each of these methods is proved against a function that specifies it. The
properties of that function are proved as lemmas.

Abstractions:
- Vectors have exact `real` components.
- A matrix is denoted by the builder call that made it (`Linear.Mat4`).
- The vertex shader, the camera's `orbit` and `zoom`, and the `f32` step
  `accum += 1.0e-3` are parameters. For the step, the model only assumes that
  it advances by 0.001 up to a rounding bound (`Fragments.Advances`).
- Colours other than black and pink are opaque (`Colors.Color`).
- A planet preset is named by its constructor (`App.Planet`).
- The framebuffer is observed through its current colour and the list of
  `paint_point` calls it received.

## Model

| member | source | states |
|---|---|---|
| Vertices.New | src/vertex.rs:13-20 | position, normal and texture coordinates are stored as given; the colour is black |
| Vertices.NewWithColor | src/vertex.rs:22-29 | position and colour as given; normal and texture coordinates are zero |
| Vertices.Default | src/vertex.rs:37-46 | origin, normal (0, 1, 0), texture coordinates (0, 0), black |
| Vertices.SetTransformed | src/vertex.rs:31-34 | position and normal are replaced; texture coordinates and colour are unchanged |
| Vertices.SetTransformedLastWins | src/vertex.rs:31-34 | a second call overrides the first; repeating a call with the same arguments changes nothing |
| Fragments.NewFragment | src/fragment.rs:10-12 | position and colour are stored unchanged |
| Fragments.LineParams | src/fragment.rs:27-33 | every parameter the loop body sees lies in [t, 1]; the list is non-empty exactly when the start is at most 1 |
| Fragments.LineParamsChain | src/fragment.rs:19-33 | the first parameter is the start; each next one is one step later and strictly larger; the step after the last exceeds 1 |
| Fragments.EdgePoint | src/fragment.rs:20-29 | parameter 0 gives the first endpoint and parameter 1 the second |
| Fragments.FragmentsAlong | src/fragment.rs:28-32 | one pink fragment per parameter, in order, at the matching edge point |
| Fragments.LineFragments | src/fragment.rs:15-36 | `line` is never empty; it starts at `a`'s position; every fragment is pink and lies on the segment from `a` to `b` |
| Fragments.LineStep | src/fragment.rs:28-32 | one loop pass emits the fragment at the current parameter, then advances; the termination measure drops |
| Fragments.Line | src/fragment.rs:15-36 | the loop returns exactly the fragments `LineFragments` describes |
| Fragments.TriangleFragments | src/fragment.rs:38-44 | at least three fragments, all pink; the three edges start at v1, v2 and v3 in that order |
| Fragments.Triangle | src/fragment.rs:38-44 | the concatenation of the three `line` calls is `TriangleFragments` |
| Seqs.Chunks | src/render.rs:31 | `chunks(n)`: non-empty chunks of at most n; all but the last have exactly n; their concatenation is the input |
| Seqs.ChunkCount | src/render.rs:31 | there are ceil(len / n) chunks; all have length n exactly when n divides the length |
| Objs.Vec3sOfChunks | src/obj.rs:28-38 | succeeds exactly when every chunk has at least 3 values, otherwise panics on an index; exact chunks flatten back to the input |
| Objs.Vec2sOfChunks | src/obj.rs:40-44 | the same for 2-vectors |
| Objs.GroupVec3 | src/obj.rs:28-38 | succeeds exactly when the length is a multiple of 3; then there are len/3 vectors whose coordinates, in order, are the input |
| Objs.GroupVec2 | src/obj.rs:40-44 | succeeds exactly when the length is even; then there are len/2 vectors whose coordinates, in order, are the input |
| Objs.ConvertMesh | src/obj.rs:27-49 | one model converts exactly when its three lists split into whole vectors; the vectors flatten back to the lists; indices are unchanged |
| Objs.Conversions | src/obj.rs:24-49 | one conversion per model, in model order |
| Objs.ConvertAll | src/obj.rs:24-63 | the conversions as the fold consumes them: on success there is one converted model per model (its meaning is `Objs.ConvertAllMeaning`) |
| Objs.ConvertAllMeaning | src/obj.rs:24-63 | the fold succeeds exactly when every model converts, yielding each conversion in order; otherwise it panics on an index |
| Objs.Append | src/obj.rs:50-62 | the `reduce` closure: each of the four merged lists is as long as the two parts together (order is `Objs.MergeAllSplit`; the missing index offset is shown by `Objs.MergedIndicesReadEarlierModel` and `Objs.MergeLosesSecondTriangle`) |
| Objs.AppendInRange | src/obj.rs:50-62 | appending two models whose indices are in range keeps every index in range, since the vertex list only grows |
| Objs.MergeAll | src/obj.rs:50-62 | the fold of the `reduce` closure as written: when every model's indices are in range, so are the merged model's (the as-written half of the merge finding) |
| Objs.MergeAllSplit | src/obj.rs:50-62 | merging `a + b` appends b's merge to a's list by list: order is kept, and indices are appended with no offset |
| Objs.MergeAllSnoc | src/obj.rs:50-62 | one more model appends its four lists to the accumulator |
| Objs.Load | src/obj.rs:24-63 | no models panics on `unwrap`; a model that does not convert panics on an index; otherwise the result is the in-order merge of all conversions |
| Objs.ReduceModels | src/obj.rs:24-63 | the `map`/`reduce` loop yields the first conversion panic, or the merge of all conversions |
| Objs.GetVertexArray | src/obj.rs:73-80 | one vertex per index, in index order, at `vertices[index]`, with normal (0, 1, 0), texture (0, 0) and black; succeeds exactly when every index is in range, otherwise an `unwrap` panic |
| Objs.MergedIndicesReadEarlierModel | src/obj.rs:50-62 | after the merge, the second model's first vertex is read from the first model's vertices |
| Objs.MergeTwo | src/obj.rs:50-62 | merging two models as written is one application of the `reduce` closure |
| Objs.MergeLosesSecondTriangle | src/obj.rs:50-62 | two one-triangle models merge into a mesh whose second triangle repeats the first |
| Objs.AppendReindexedVertexArray | src/obj.rs:50-62 | with the index offset, appending a model appends exactly that model's vertex array |
| Objs.Shift | src/obj.rs:50-62 | the index offset of the intended merge: same length, every index raised by the offset |
| Objs.AppendReindexed | src/obj.rs:50-62 | the intended reducer, which shifts `b`'s indices by `a`'s vertex count: the four list lengths add up (its effect on indices and vertex arrays: `Objs.AppendReindexedInRange`, `Objs.AppendReindexedVertexArray`) |
| Objs.AppendReindexedInRange | src/obj.rs:50-62 | with the offset, appending two models whose indices are in range keeps every index in range |
| Objs.MergeAllReindexed | src/obj.rs:50-62 | the intended fold: when every model's indices are in range, so are the merged model's (the corrected half of the merge finding) |
| Objs.MergeReindexedVertexArray | src/obj.rs:50-62 | with the index offset, the merged vertex array is every model's own vertex array, in model order |
| Outcomes.Collect | src/obj.rs:50-63 | the per-item outcomes folded in order, stopping at the first panic: a success has one value per item (see `Outcomes.CollectMeaning`) |
| Outcomes.CollectMeaning | src/obj.rs:50-63 | folding per-item outcomes in order succeeds exactly when all succeed, keeps their values in order, and otherwise reports one of their panics |
| Outcomes.CollectPanicStays | src/obj.rs:50-63 | once a prefix of the fold has panicked, the remaining items change nothing |
| Framebuffers.Framebuffer.SetCurrentColor | src/render.rs:46 | the current colour becomes the given one; no paint call is made |
| Framebuffers.Framebuffer.PaintPoint | src/render.rs:47 | exactly one paint call is appended, with the current colour; the colour is unchanged |
| Render.ShadeVertices | src/render.rs:24-27 | same length and order; element i is the shader applied to vertex i |
| Render.VertexStage | src/render.rs:20-27 | succeeds exactly when every index is in range; element i is the shader applied to the i-th indexed vertex |
| Render.AssembleFragments | src/render.rs:35-38 | at least three fragments per triangle, all pink |
| Render.AssembleFragmentsSnoc | src/render.rs:35-38 | one more triangle appends its `triangle` fragments |
| Render.AssembleObj | src/render.rs:31-38 | the chunks are rasterized exactly when the vertex count is a multiple of 3, otherwise indexing the short last chunk (`tri[1]` or `tri[2]`) panics; at least one fragment per vertex, all pink |
| Render.ObjFragments | src/render.rs:19-38 | one object yields fragments exactly when its indices are in range and their count is a multiple of 3; at least one fragment per index, all pink |
| Render.ObjResults | src/render.rs:19-38 | one result per object |
| Render.ObjResultsAt | src/render.rs:19-38 | the k-th result is the k-th object's fragments |
| Render.ObjResultsSplit | src/render.rs:19-38 | the results for `a + b` are a's results followed by b's |
| Render.ObjResultsAppendOne | src/render.rs:19-38 | one more object appends its own result |
| Render.ObjResultsSnoc | src/render.rs:19-38 | the results up to object i + 1 extend those up to i by object i's |
| Render.PaintCalls | src/render.rs:43-48 | one paint call per fragment, in order, each with that fragment's position and colour |
| Render.PaintCallsAppend | src/render.rs:43-48 | painting two lists in a row makes the calls of each, in order |
| Render.TraceOf | src/render.rs:19-50 | what the render loop paints and whether it panics: a reported panic is the panic of one of the objects (see `Render.TraceOfPanic`, `Render.TraceOfSplit`) |
| Render.RenderTrace | src/render.rs:16-50 | what `render` paints for a list of objects: a reported panic is the panic of one of the objects (see `Render.RenderPanicsIff`, `Render.RenderTraceSplit`, `Render.RenderPaintsPink`) |
| Render.TraceOfSplit | src/render.rs:19-50 | a panic in the first part ends the render; otherwise the painted lists concatenate |
| Render.RenderTraceSplit | src/render.rs:19-50 | all of one object's fragments are painted before any of the next object's; a panicking object stops the render |
| Render.TraceOfPink | src/render.rs:43-48 | when every object's fragments are pink, everything painted is pink |
| Render.RenderPaintsPink | src/render.rs:43-48 | every painted point is pink, whatever the vertex colours |
| Render.TraceOfPanic | src/render.rs:19-50 | the fold panics exactly when some object's result is a panic |
| Render.RenderPanicsIff | src/render.rs:19-50 | a render panics exactly when some object has an index out of range or an index count not a multiple of 3 |
| Render.TraceOfSnoc | src/render.rs:19-50 | one more object either stops the render with its panic or appends its fragments |
| Render.RenderStopsAt | src/render.rs:19-50 | after the first panicking object, the rest of the list changes nothing |
| Render.RasterizeTriangles | src/render.rs:35-38 | the triangle loop succeeds exactly when every chunk has 3 vertices, yielding `AssembleFragments`; a short chunk panics on an index |
| Render.CollectFragments | src/render.rs:20-38 | the per-object pipeline computes `ObjFragments` |
| Render.LastColorAppend | src/render.rs:43-48 | the last colour after two lists is the second list's last colour, or the first's when the second is empty |
| Render.PaintFragments | src/render.rs:43-48 | the paint loop appends one call per fragment, in order; the current colour ends as the last fragment's colour |
| Render.Render | src/render.rs:16-50 | only the framebuffer changes: it receives the paint calls of the trace, object after object, and ends with the trace's last colour; the render panics exactly when the trace does, with its reason |
| App.PlanetKey | src/main.rs:96-102 | the number key that selects each planet lies in 1..7 |
| App.KeyMessage | src/main.rs:87-127 | exactly the arrow keys, W, S and 1..7 yield a message. Left is `RotateCamera(ROTATION_SPEED, 0)`, Right `(-ROTATION_SPEED, 0)`, Up `(0, -ROTATION_SPEED)`, Down `(0, ROTATION_SPEED)`; W is `ZoomCamera(ZOOM_SPEED)`, S `ZoomCamera(-ZOOM_SPEED)`; number keys select the planets in order; no key yields `UpdateTime` |
| App.OppositeKeys | src/main.rs:88-94 | Left/Right, Up/Down and W/S give opposite moves |
| App.EveryPlanetHasOneKey | src/main.rs:96-102 | every planet is selected by exactly one number key |
| App.KeysToMessages | src/main.rs:84-128 | at most one message per key. Every key mapping gives one message each; no key mapping gives none; none is `UpdateTime` |
| App.KeysToMessagesSingle | src/main.rs:84-128 | one key yields `[KeyMessage(k)]` when it is a control key and nothing otherwise; with `App.KeysToMessagesAppend` this fixes the messages of every key list |
| App.KeysToMessagesFromKeys | src/main.rs:84-128 | every message is the `KeyMessage` of some pressed key |
| App.ControlKeysGiveMessages | src/main.rs:84-128 | every pressed control key's message is among the messages |
| App.LastSelectionOfKeys | src/main.rs:84-134 | the last `ChangePlanet` among the key messages is the planet of the last number key 1..7 pressed |
| App.KeysToMessagesAppend | src/main.rs:84-128 | the mapping preserves key order: two key lists map to their messages in the same order |
| App.FoldUpdates | src/main.rs:132-134 | the `for msg in messages` fold never changes entities, rotation, translation or scale (the other fields: `App.FoldKeepsFixedFields`, `App.FoldMatchesReference`) |
| App.Update | src/main.rs:203-263 | each field changes only under its own message. Camera messages move the camera and rebuild the view from it; `UpdateTime` sets only the time; `ChangePlanet` sets only the rendered entities, to the singleton |
| App.FoldUpdatesSnoc | src/main.rs:132-134 | folding one more message applies `update` to the fold so far |
| App.FoldKeepsFixedFields | src/main.rs:132-134 | any message sequence keeps entities, rotation, translation, scale, projection and viewport. It keeps the view in step with the camera and exactly one rendered entity |
| App.FoldMatchesReference | src/main.rs:132-134 | after a fold: the camera depends only on the camera messages; the time is the last `UpdateTime`; the rendered entities are the last `ChangePlanet` |
| App.KeysKeepTime | src/main.rs:84-128 | key messages never change the time |
| App.LastTimeWithoutUpdates | src/main.rs:247-253 | without an `UpdateTime`, the time stays as it was |
| App.FrameMessages | src/main.rs:129-134 | with `UpdateTime(time)` appended last, a frame always ends at that time; its rendered entity is the planet of the last number key pressed, if any, otherwise the previous one |
| App.InitAsWritten | src/main.rs:163-201 | as written, `init` builds the viewport with the framebuffer dimensions swapped |
| App.Init | src/main.rs:163-201 | time 0, no entities, the green planet as the one rendered entity, the camera at (0, 0, 10) looking at the origin with y up, and the view built from it. Also the projection from the window, the viewport from the framebuffer, zero rotation and translation, and scale 1 |
| App.InitAsWrittenDiffers | src/main.rs:163-201 | as written differs from the intended `init` only in the viewport, and only when the framebuffer is not square |
| App.InitSwapsViewport | src/main.rs:56-59 | for the 1000 x 666 framebuffer, the viewport as written spans 666 x 1000 |
| App.RecordFrame | src/main.rs:147-151 | the window stays within 60 entries, ends with the new frame time, and grows by one while not full |
| App.RecordFrameKeepsLastN | src/main.rs:147-151 | FIFO: the window is always the last 60 frame times of the whole run, oldest first |
| MainLoop.FramebufferHeight | src/main.rs:31-34 | the framebuffer height is the window's height-to-width ratio times the framebuffer width, rounded down |
| MainLoop.MainFramebuffer | src/main.rs:28-34 | the 1080 x 720 window gets a 1000 x 666 framebuffer |
| MainLoop.ApplyMessages | src/main.rs:132-134 | the `for msg in messages` loop computes the fold of `update` |
| MainLoop.FrameLoop.constructor | src/main.rs:28-72 | the state before the loop: the corrected `init` (`App.Init`), one render, zero timers, an empty frame-time window and time 0 |
| MainLoop.FrameLoop.Frame | src/main.rs:73-158 | one pass: timers step first; Escape stops with nothing else changed. Otherwise the key messages and then `UpdateTime(time)` are folded into the model, which is rendered; the frame time is recorded and the clock advances. The timers and the window stay in bounds |
| MainLoop.FrameLoop.StepTimers | src/main.rs:76-77 | the cooldown decrements but never goes below 0; the splash timer increments but never exceeds `splash_delay + 1` |
| MainLoop.FrameLoop.UpdateAndRender | src/main.rs:84-152 | everything after the Escape check, as in `Frame` |
| MainLoop.FrameLoop.UpdateModel | src/main.rs:129-139 | the folded model is what is handed to `render`, every frame |
| MainLoop.FrameLoop.RecordFrameTime | src/main.rs:147-152 | pop front when full, push back, and advance the clock by the frame time |

## Left out

- `src/shader.rs`, the matrix builders (src/render.rs:53-124) and the homogeneous divide. These are `f32` matrix and trigonometric numerics and calls into `nalgebra_glm`. A matrix is the builder call that made it, and the vertex shader is a parameter.
- `Fragments.LineFragments`: does not state how many fragments an edge gets, nor that parameters are exact multiples of 0.001. Both depend on `f32` rounding of `accum += 1.0e-3`. The step is an abstract function that advances by 0.0009 to 0.0011 per call.
- `Fragments.Line`: reads the vertex `position`. The source reads `transformed_position`, which the `Vertex` record in src/vertex.rs does not have. The position after the vertex shader is the one modelled.
- `Vertices.SetTransformed`: modelled as a function returning the updated record, not as an update through `&mut self`. No aliasing of vertices exists in the modelled code.
- The framebuffer's pixels, depth buffer, `clear` and blending: framebuffer.rs is not part of this model. The framebuffer records its current colour and its `paint_point` calls, and the `Result` that `paint_point` returns is discarded as in the source.
- `println!` progress messages in `render`: output only.
- `tobj::load_obj` file parsing, its load options and its `LoadError`: a foreign library doing file I/O. `Objs.Load` receives the parsed meshes. The `u32 as usize` index conversion is the identity on `nat`.
- The planet presets and materials (src/planets.rs, src/material.rs) and `load_objs(...).unwrap()`: preset data and file loading. An entity is the preset that built it.
- Camera internals, `has_changed` and `reset_change`: camera.rs is not part of this model. `orbit` and `zoom` are parameters. Rendering happens every frame because `should_update` is always true, so the change flag does not affect what is rendered.
- The window, key polling, the mouse, `Instant`, `thread::sleep`, the frames-per-second average and the window title: I/O, clocks and floats. Escape, the pressed keys and each frame's duration are arguments of `Frame`.
- `FastNoiseLite` and the noise argument of `render`: the snapshot's `render` (src/render.rs:16) takes no noise and reads `objs` rather than `render_entities`. So the main loop records the model it hands to `render` instead of calling `Render.Render`.
- `mode_cooldown` (src/main.rs:67): it is only used in commented-out code. The model proves that the cooldown timer therefore stays 0.
- `MainLoop.FramebufferHeight`: computed exactly, rounded down, rather than as an `f32` product. For the 1080 x 720 window both give 666.
- `App.RotationSpeed`: `PI / 20.0` in `f32` is written as the decimal 0.15707964. The time uniform and the clock are exact reals rather than `f32`.
- `MainLoop.FrameLoop.constructor`: starts the loop from the corrected `init` (`App.Init`, viewport 1000 x 666), not from the as-written `init` that src/main.rs:56-59 calls (viewport 666 x 1000, `App.InitAsWritten`). Only the viewport matrix differs (`App.InitAsWrittenDiffers`). So every model the loop hands to `render` carries a different viewport from the source's, and `render` reads it through the vertex shader (src/shader.rs:16-20), which places every fragment.
- `Render.RasterizeTriangles`: requires every chunk to have at most 3 vertices, which `chunks(3)` guarantees for its only caller.

## Findings

| source | as written | input that shows it | evidently intended | confidence | as-written member | corrected member |
|---|---|---|---|---|---|---|
| src/main.rs:164 | `init` destructures `framebuffer_dimensions` as `(height, width)`, while `main` passes `(width, height)`, so the viewport matrix gets the dimensions swapped | window (1080, 720), framebuffer (1000, 666): viewport built for 666 x 1000 | destructure as `(width, height)`, giving a viewport for 1000 x 666 | high; not executed | App.InitAsWritten (shown by App.InitSwapsViewport) | App.Init, used by MainLoop.FrameLoop.constructor |
| src/obj.rs:50-62 | the `reduce` appends each model's indices without adding the number of vertices already merged, so later models index the earlier models' vertices | two one-triangle models, each with indices 0, 1, 2: the merged vertex array draws the first triangle twice | offset each appended model's indices by the merged vertex count | high; not executed | Objs.MergeAll (shown by Objs.MergeLosesSecondTriangle) | Objs.MergeAllReindexed (proved by Objs.MergeReindexedVertexArray) |

`Objs.Load` keeps the merge as written, because it models src/obj.rs:24-63
itself. No other part of the model consumes a merged mesh: `Render.Render`
takes its objects as input.
