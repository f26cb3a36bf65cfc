# cg_hw2 glTF viewer: scene binding, drawing, frame metrics and camera input

This project models the core of a small Qt/OpenGL viewer for glTF 2.0
scenes. The model has four parts:

- **Binding** (`bindMesh`, `bindModelNodes`, `bindModel`). Each buffer
  view with a non-zero target is uploaded into a fresh GL buffer. The
  position, normal and first texture-coordinate attributes are wired to
  vertex slots 0, 1 and 2. The first texture is uploaded once per
  primitive. The default scene is walked in depth-first pre-order, and
  the cleanup then deletes every buffer whose view is not an
  element-array view.
- **Drawing** (`drawMesh`, `drawModelNodes`, `drawModel`). The same walk
  issues one `glDrawElements` per primitive, reading the index buffer the
  binder kept.
- **Frame bookkeeping** (`onRender`'s counters, the metrics guard and the
  slider slots of `Window`).
- **Camera input** (`Camera`'s mouse and wheel handlers, `resize`, and the
  per-frame `update`).

The GPU is a class `GlTrace.Gl`: a counter handing out fresh names, an
append-only trace of the commands issued, and the global texture name.
Every binding and drawing method is proved to leave exactly the trace
that a pure specification function computes (`BindModelSpec`,
`DrawModelSpec`). The properties are proved about those functions:

- **Which views stay mapped.** After binding, the map holds exactly the
  element-array views, provided some visited node has a mesh. Otherwise
  it is empty.
- **Where the names come from.** Every kept name was generated by the
  binder after the vertex array. No two keys share a non-zero name.
- **When drawing fails.** Drawing what was bound fails a lookup exactly
  when some visited primitive takes its indices from a view that is not
  an element-array view.
- **Which buffers leak.** When two meshed nodes are bound in one walk,
  the buffers of the first upload are overwritten in the map. They are
  never deleted and never returned.

The failed lookup (`vbos.at` throwing) is modelled as an error path. The
draw result carries `ok == false`, the walk stops at the failing
primitive, and the closing `glBindVertexArray(0)` is not issued. It is
not a precondition, because the code does reach that state for documents
it accepts. When the draw throws, `onRender` skips its frame counters and
its redraw request, while the metrics guard still runs on the way out.

The camera's vector and matrix library (rotation about an axis,
normalisation, look-at, perspective, transforming the right vector by the
view) is a parameter `Geometry` of arrow-typed fields. The model states
how `update` composes those operations and drains the pending input.

## Model

| member | source | states |
|---|---|---|
| Gltf.Pre | src/App/Window.cpp:162-172 | the pre-order of a subtree starts at its root and stays within the node list |
| Gltf.PreChildren | src/App/Window.cpp:168-171 | the walk over a node's first children stays within the node list |
| Gltf.PreRoots | src/App/Window.cpp:180-184 | the walk over the default scene's first roots stays within the node list |
| Gltf.Visit | src/App/Window.cpp:180-184 | every node the scene walk visits is a valid node index |
| Gltf.PreChildrenIncludes | src/App/Window.cpp:168-171 | every node of the k-th child's subtree is walked by the child loop once it passes k |
| Gltf.PreIncludesChild | src/App/Window.cpp:168-171 | a child's subtree is part of its parent's walk |
| Gltf.PreRootsIncludes | src/App/Window.cpp:181-184 | every node of a root's subtree is walked by the root loop once it passes that root |
| Gltf.VisitCoversRoots | src/App/Window.cpp:180-184 | a node is visited exactly when some root's subtree contains it |
| Gltf.RootsCover | src/App/Window.cpp:181-184 | a node walked by the first i roots lies in the subtree of one of them |
| Gltf.PreChildrenPrefix | src/App/Window.cpp:168-171 | the walk of fewer children is a prefix of the walk of more |
| Gltf.PreRootsPrefix | src/App/Window.cpp:181-184 | the walk of fewer roots is a prefix of the walk of more |
| Gltf.NodePrefix | src/App/Window.cpp:164-171 | a node followed by the walks of its first children is a prefix of the node's whole walk |
| Gltf.NodeStep | src/App/Window.cpp:168-171 | one more turn of the child loop extends the walk by exactly that child's subtree |
| GlTrace.Gl.constructor | src/App/Window.cpp:21-24 | a fresh context has issued nothing, its first name is 1 and the texture name is 0 |
| GlTrace.Gl.GenBuffer | src/App/Window.cpp:79-80 | returns the next fresh name, records its generation and advances the counter |
| GlTrace.Gl.GenVertexArray | src/App/Window.cpp:176-177 | returns the next fresh name, records its generation and advances the counter |
| GlTrace.Gl.GenTexture | src/App/Window.cpp:121 | generates a fresh name straight into the global texture name |
| GlTrace.Gl.Emit | src/App/Window.cpp:82-85 | appends exactly one command to the trace and changes nothing else |
| SceneBinder.AttribSlot | src/App/Window.cpp:103-106 | POSITION, NORMAL and TEXCOORD_0 get slots 0, 1 and 2, each iff the semantic matches; anything else gets -1 |
| SceneBinder.SlotRoundTrip | src/App/Window.cpp:103-107 | slot and semantic are inverse on the three supported slots |
| SceneBinder.ComponentSize | src/App/Window.cpp:98-101 | a scalar accessor passes size 1; any other type passes its type code |
| SceneBinder.ComponentSizeOfVectors | src/App/Window.cpp:98-101 | for SCALAR and VEC2..VEC4 the size passed is the glTF component count |
| SceneBinder.TextureFormat | src/App/Window.cpp:132-142 | 1, 2 and 3 channels give RED, RG and RGB; any other count gives RGBA |
| SceneBinder.FormatMatchesChannels | src/App/Window.cpp:132-142 | the format reads the image's channel count for 1 to 3 channels and 4 otherwise |
| SceneBinder.TextureType | src/App/Window.cpp:144-152 | 16-bit images upload as UNSIGNED_SHORT, every other depth as UNSIGNED_BYTE |
| SceneBinder.TypeMatchesDepth | src/App/Window.cpp:144-152 | for 8- and 16-bit images the pixel type reads exactly the channel depth |
| SceneBinder.UploadViews | src/App/Window.cpp:70-86 | exactly the views with a non-zero target gain a name, each one fresh; other entries are untouched |
| SceneBinder.BindAttribs | src/App/Window.cpp:92-114 | the attribute loop generates no names; a lookup of an absent view inserts that view with name 0 |
| SceneBinder.TextureStep | src/App/Window.cpp:116-157 | without a first texture naming an image nothing happens; otherwise exactly two commands are appended, the generation of the new global texture name and a glTexImage2D with internal format RGBA, the image's width and height, the format its channel count selects and the type its bit depth selects |
| SceneBinder.BindPrims | src/App/Window.cpp:88-158 | the primitive loop keeps every existing entry and adds only in-range views mapped to 0 |
| SceneBinder.CleanupFrom | src/App/Window.cpp:188-197 | the erase loop keeps an entry iff its view is an element-array view; the kept names are unchanged and each erased name is deleted |
| SceneBinder.BindMeshKeys | src/App/Window.cpp:68-159 | bindMesh maps every view with a non-zero target and adds no key outside the view list |
| SceneBinder.BindVisitKeys | src/App/Window.cpp:162-172 | a walk keeps old keys and adds only view indices; it maps every non-zero view when it meets a meshed node, and leaves the map alone otherwise |
| SceneBinder.AnyMeshedSnoc | src/App/Window.cpp:164-166 | a walk extended by one node meets a mesh iff the old walk did or that node has one |
| SceneBinder.BindModelKeys | src/App/Window.cpp:174-200 | bindModel returns exactly the element-array views when a visited node has a mesh, and an empty map otherwise |
| SceneBinder.ZeroTargetNeverMapped | src/App/Window.cpp:72-75 | a view with target 0 never survives in the returned map |
| SceneBinder.UploadBufferViews | src/App/Window.cpp:70-86 | the upload loop leaves the map and trace that UploadViews computes |
| SceneBinder.BindAttributes | src/App/Window.cpp:92-114 | the attribute loop leaves the map and trace that BindAttribs computes |
| SceneBinder.BindTexture | src/App/Window.cpp:116-157 | the texture block leaves the trace and texture name that TextureStep computes |
| SceneBinder.BindMesh | src/App/Window.cpp:68-159 | bindMesh leaves the map and trace that BindMeshSpec computes |
| SceneBinder.BindMeshSpec | src/App/Window.cpp:68-159 | the specification of bindMesh: the upload loop, then the primitive loop; its keys are stated by BindMeshKeys and its commands by UploadViewsCommands and BindAttribsCommands |
| SceneBinder.BindVisitAppend | src/App/Window.cpp:162-172 | binding a concatenated walk is binding the second part after the first |
| SceneBinder.BindStep | src/App/Window.cpp:164-166 | one node of the walk binds its mesh iff the mesh index is in range; stated by NodeBoundFirst |
| SceneBinder.BindVisit | src/App/Window.cpp:162-172 | binding the nodes of a walk in order; stated by BindVisitKeys, BindVisitAppend and BindVisitHandles |
| SceneBinder.BindModelNodes | src/App/Window.cpp:162-172 | bindModelNodes binds the node's pre-order subtree in order |
| SceneBinder.NodeBoundFirst | src/App/Window.cpp:164-166 | bindModelNodes binds the node's own mesh, iff its index is in range, before any child |
| SceneBinder.ChildBound | src/App/Window.cpp:168-171 | one turn of the child loop binds that child's whole subtree after what was bound so far |
| SceneBinder.RootBound | src/App/Window.cpp:181-184 | one turn of the root loop binds that root's whole subtree after what was bound so far |
| SceneBinder.CleanupVbos | src/App/Window.cpp:186-197 | the iterator loop leaves the map and deletions that Cleanup computes |
| SceneBinder.Deleted | src/App/Window.cpp:188-197 | the deletions of the erase loop in ascending key order; stated by CleanupFrom and CleanupDeletesMapped |
| SceneBinder.Cleanup | src/App/Window.cpp:186-197 | the erase loop over every view index; stated by CleanupFrom and CleanupSparesUnmapped |
| SceneBinder.BindModelSpec | src/App/Window.cpp:174-200 | the specification of bindModel: a fresh bound vertex array, the walk, the unbind and the cleanup; stated by BindModelKeys, BindModelHandlesOk and BoundNamesGenerated |
| SceneBinder.BindModel | src/App/Window.cpp:174-200 | bindModel returns the first fresh name as the vertex array, leaves BindModelSpec's state, and keeps exactly the element-array views when a visited node has a mesh |
| SceneBinder.BindModelClose | src/App/Window.cpp:186-199 | after all roots are bound, unbinding the vertex array and the cleanup give BindModelSpec, whose keys are the element-array views when a mesh was met |
| BinderHandles.UploadViewsTrace | src/App/Window.cpp:70-86 | the upload loop only appends commands and issues no deletion |
| BinderHandles.UploadViewsHandles | src/App/Window.cpp:79-81 | the upload loop evolves the state, keeps names distinct and records the generation of every name it maps |
| BinderHandles.UploadViewsInjective | src/App/Window.cpp:79-81 | after the upload loop no two keys share a non-zero name |
| BinderHandles.FreshNameKeepsHandles | src/App/Window.cpp:80-81 | mapping a key to the next fresh name keeps names distinct and below the counter |
| BinderHandles.UploadStepHandles | src/App/Window.cpp:79-81 | uploading one more view with a non-zero target keeps the names distinct, below the counter, and generated in the trace |
| BinderHandles.UploadViewsGenerates | src/App/Window.cpp:79-81 | every name the upload maps has its glGenBuffers in the trace |
| BinderHandles.BindAttribsHandles | src/App/Window.cpp:92-114 | the attribute loop only appends, deletes nothing, and keeps names distinct |
| BinderHandles.TextureStepHandles | src/App/Window.cpp:116-157 | the texture block only appends, deletes nothing, and keeps names distinct |
| BinderHandles.BindPrimsHandles | src/App/Window.cpp:88-158 | the primitive loop only appends, deletes nothing, and keeps names distinct |
| BinderHandles.EvolvesTrans | src/App/Window.cpp:68-159 | two steps that each only append and hand out fresh names compose into one such step |
| BinderHandles.BindMeshHandles | src/App/Window.cpp:68-159 | bindMesh overwrites every non-zero view with a name generated during that call |
| BinderHandles.BindVisitHandles | src/App/Window.cpp:162-172 | a walk only appends, deletes nothing, keeps names distinct, and one that meets a mesh overwrites every non-zero view |
| BinderHandles.OverwrittenNameDropped | src/App/Window.cpp:79-81 | a name mapped after an earlier mesh is generated, no longer mapped after a later mesh, and not deleted by the walk |
| BinderHandles.CleanupDeletesMapped | src/App/Window.cpp:188-197 | the cleanup deletes only names it finds in the map |
| BinderHandles.BindModelLeaksOverwritten | src/App/Window.cpp:174-200 | with two meshed nodes in the walk, a buffer the first bindMesh generated is neither returned nor ever deleted |
| BinderHandles.CleanupSparesUnmapped | src/App/Window.cpp:188-197 | the cleanup neither keeps nor deletes a name absent from the map |
| BinderHandles.BindModelHandlesOk | src/App/Window.cpp:174-200 | in the map bindModel returns, after the cleanup, no two views share a non-zero name and every name is below the final counter |
| BinderCommands.UploadOf | src/App/Window.cpp:82-85 | the upload of a view carries that view's target, the buffer's name and the view's byte offset and length |
| BinderCommands.AttribEnable | src/App/Window.cpp:96-108 | a supported attribute is enabled at its slot with the component count its type gives and the accessor's component type, normalisation and byte offset |
| BinderCommands.UploadViewsCommands | src/App/Window.cpp:70-86 | the upload loop appends, for each view with a non-zero target in index order, the generation of its buffer and the upload of its byte range under the name it keeps, and nothing else |
| BinderCommands.UploadStepCommands | src/App/Window.cpp:77-85 | one more view with a non-zero target appends exactly its generation and upload under the fresh name |
| BinderCommands.UploadsSnoc | src/App/Window.cpp:77-85 | the commands of the first k views are those of the first k-1 followed by view k-1's, under the updated map |
| BinderCommands.UploadsFromFrame | src/App/Window.cpp:70-86 | the upload commands of the first k views depend only on the names of those views |
| BinderCommands.UploadsFromContents | src/App/Window.cpp:70-86 | a command is among the uploads iff it is the generation or the upload of a view with a non-zero target |
| BinderCommands.BindAttribsCommands | src/App/Window.cpp:92-114 | the attribute loop appends, per attribute in order, a bind of its view's buffer and, for a supported semantic only, the enable of its slot, and nothing else |
| BinderCommands.AttribsSnoc | src/App/Window.cpp:94-108 | one more attribute appends its buffer bind and, for a supported semantic, its enable |
| BinderCommands.AttribCmdsFrame | src/App/Window.cpp:92-114 | the attribute commands depend only on the names of the views the attributes read |
| BinderCommands.AttribCmdsEnables | src/App/Window.cpp:103-111 | an enable is issued iff some attribute has a supported semantic, it is that attribute's, and every other command is a buffer bind; an unknown semantic enables nothing |
| BinderCommands.TextureUploadMatchesImage | src/App/Window.cpp:130-155 | the texture upload is RGBA internally with the image's size, its format reads the image's channel count (4 beyond 3), and for 8- and 16-bit images its type reads the channel depth |
| SceneRenderer.DrawPrims | src/App/Window.cpp:204-215 | drawMesh succeeds iff every primitive's index view is mapped; each command is the primitive's draw, one per primitive on success |
| SceneRenderer.DrawVisitOk | src/App/Window.cpp:218-227 | drawing a walk succeeds iff every node on it can be drawn |
| SceneRenderer.DrawVisitCmds | src/App/Window.cpp:202-227 | a successful walk issues one draw per primitive of each meshed node, each with the current texture and a mapped index buffer |
| SceneRenderer.DrawModelShape | src/App/Window.cpp:228-238 | drawModel starts by binding the vertex array and ends by unbinding it iff no lookup failed; everything in between is a draw |
| SceneRenderer.DrawPrimsSticky | src/App/Window.cpp:208 | after a failed lookup no further primitive is drawn |
| SceneRenderer.DrawVisitAppend | src/App/Window.cpp:218-227 | drawing a concatenated walk is the first part followed by the second, unless the first failed |
| SceneRenderer.AppendAfterFailure | src/App/Window.cpp:218-227 | once a walk has failed, extending it emits nothing more |
| SceneRenderer.AppendAfterOk | src/App/Window.cpp:218-227 | after a successful walk, an extension emits its own commands and reports its own outcome |
| SceneRenderer.DrawVisitSticky | src/App/Window.cpp:218-227 | a failed walk stays failed, with the same commands, when extended |
| SceneRenderer.DrawVisitSingle | src/App/Window.cpp:221-223 | a one-node walk draws that node's mesh iff the mesh index is in range |
| SceneRenderer.DrawVisit | src/App/Window.cpp:218-227 | the draws of a walk in order, stopping at the first failed lookup; stated by DrawVisitOk, DrawVisitCmds and DrawVisitAppend |
| SceneRenderer.DrawMesh | src/App/Window.cpp:202-216 | drawMesh emits DrawPrims' commands with the current texture and reports its outcome |
| SceneRenderer.DrawModelNodes | src/App/Window.cpp:218-227 | drawModelNodes emits the draws of the node's pre-order subtree and stops at the first failed lookup |
| SceneRenderer.NodeDrawnFirst | src/App/Window.cpp:221-223 | drawModelNodes draws the node's own mesh, iff its index is in range, before any child, and a failure there ends the subtree |
| SceneRenderer.ChildDrawn | src/App/Window.cpp:224-226 | one successful turn of the child loop extends the walk by that child's subtree |
| SceneRenderer.ChildFailed | src/App/Window.cpp:224-226 | a failure below a child ends the walk of the whole subtree |
| SceneRenderer.RootDrawn | src/App/Window.cpp:233-235 | one successful turn of the root loop extends the draws by that root's subtree |
| SceneRenderer.RootFailed | src/App/Window.cpp:233-235 | a failure below a root ends drawModel without unbinding the vertex array |
| SceneRenderer.DrawModelClose | src/App/Window.cpp:236-237 | after every root is drawn, unbinding the vertex array completes drawModel successfully |
| SceneRenderer.DrawModel | src/App/Window.cpp:228-238 | drawModel emits DrawModelSpec's commands and reports whether every lookup succeeded |
| SceneRenderer.DrawModelSpec | src/App/Window.cpp:228-238 | the specification of drawModel: bind the vertex array, draw the walk, unbind only on success; stated by DrawModelShape and BindThenDrawOk |
| SceneProperties.BindThenDrawOk | src/App/Window.cpp:186-208 | drawing the bound model fails no lookup iff every visited primitive is indexed from an element-array view |
| SceneProperties.BoundNamesGenerated | src/App/Window.cpp:174-200 | every returned name was generated after the vertex array, and its generation is in the trace |
| SceneProperties.DrawsUseBoundBuffers | src/App/Window.cpp:202-216 | every draw reads a buffer generated by the binder and kept for an element-array view |
| SceneProperties.ExampleIsTree | src/App/Window.cpp:162-184 | the two-node scene is well formed and its child ranks below its parent |
| SceneProperties.ExampleTree | src/App/Window.cpp:162-184 | a root with one child is walked root first, then the child |
| SceneProperties.ExampleMeshedViews | src/App/Window.cpp:186-197 | the walk of that scene meets a mesh and its only element-array view is view 0 |
| SceneProperties.ExampleMesh | src/App/Window.cpp:68-159 | the exact bindMesh trace of a one-triangle mesh: two uploads, then one position attribute |
| SceneProperties.ExampleKeys | src/App/Window.cpp:174-200 | binding that scene keeps only the index view |
| SceneProperties.ExampleCleanup | src/App/Window.cpp:186-197 | the cleanup erases the array-buffer view and deletes its name |
| SceneProperties.ExampleDraw | src/App/Window.cpp:228-238 | drawing it issues exactly one draw, from the index buffer, between binding and unbinding the vertex array |
| SceneProperties.ExampleBindThenDraw | src/App/Window.cpp:174-238 | from a fresh context bindModel keeps view 0 under buffer 2, and drawModel with that map issues exactly one draw, from buffer 2 |
| FrameStats.RoundedFps | src/App/Window.cpp:369-370 | the rate is frames per second rounded to the nearest integer, halves up |
| FrameStats.Captured | src/App/Window.cpp:363-376 | a report is added iff a full second has elapsed; then the frame counter is cleared and the timer restarted at the current time; otherwise nothing changes |
| FrameStats.Rendered | src/App/Window.cpp:292-333 | one frame that draws: both counters go up, then the guard runs; stated by RenderedAllCounts |
| FrameStats.RenderedAll | src/App/Window.cpp:292-333 | a run of frames that draw, at non-decreasing times; stated by RenderedAllCounts |
| FrameStats.RenderedAllCounts | src/App/Window.cpp:292-333 | over any run of frames the total counts every frame, reports are only appended and at most one per frame, the timer never lags a full second, and reports are at least a second apart, so n reports need at least n seconds since the timer started |
| FrameStats.SliderScale | src/App/Window.cpp:378-392 | a slot stores the slider value in hundredths, within [-1, 1] for the coordinate range |
| FrameStats.DeclaredLightDisagreesWithSlider | src/App/Window.h:99 | the declared initial light z is scaled like the slider but x is 100 times the slider's value |
| FrameStats.InitialLightMatchesSliders | src/App/Window.h:99 | the corrected initial light has both coordinates scaled like the slots |
| FrameStats.Window.constructor | src/App/Window.h:97-117 | the window starts with zero counters, its timer started, animation on, the declared light position (x unscaled) and the declared slider defaults |
| FrameStats.Window.CaptureMetrics | src/App/Window.cpp:355-376 | the guard's callback updates the counters as Captured says and touches nothing else |
| FrameStats.Window.OnRender | src/App/Window.cpp:292-333 | when the draw succeeds both counters go up by one before the guard runs and a redraw is requested iff animated; when it throws only the guard runs |
| FrameStats.Window.SetLightX | src/App/Window.cpp:378-381 | only the light's x changes, to the slider value in hundredths |
| FrameStats.Window.SetLightZ | src/App/Window.cpp:384-387 | only the light's z changes, to the slider value in hundredths |
| FrameStats.Window.SetMorphingProgress | src/App/Window.cpp:389-392 | only the morphing progress changes, to the slider value in hundredths |
| FrameStats.Window.SetSpot | src/App/Window.cpp:402-405 | only the spotlight coefficient changes, to the given value |
| FrameStats.Window.SetAmbient | src/App/Window.cpp:407-410 | only the ambient coefficient changes, to the given value |
| FrameStats.Window.SetSun | src/App/Window.cpp:412-415 | only the sun coefficient changes, to the given value |
| CameraState.Sgn | src/App/camera.cpp:55-57 | the sign function; stated by SgnCases |
| CameraState.SgnCases | src/App/camera.cpp:55-57 | the sign is 1, 0 or -1 exactly when the value is positive, zero or negative |
| CameraState.SgnOdd | src/App/camera.cpp:55-57 | the sign of a negated value is the negated sign |
| CameraState.SgnScaleFree | src/App/camera.cpp:55-57 | scaling by a positive factor keeps the sign |
| CameraState.Dragged | src/App/camera.cpp:64-73 | a left drag records the cursor, steps the pending rotation by 0.01 against the horizontal sign and nudges the orientation by the signs of the move |
| CameraState.DragDirection | src/App/camera.cpp:68-71 | dragging right lowers the pending rotation and left raises it, the orientation's z follows the horizontal direction and its y the vertical one, and its x never moves |
| CameraState.DragStepIsFixed | src/App/camera.cpp:68-71 | drags in the same directions nudge alike however far they move |
| CameraState.DragBounded | src/App/camera.cpp:70 | one drag changes the pending rotation by at most 0.01 |
| CameraState.WheelStep | src/App/camera.cpp:79-86 | a wheel event adds 3*speed times the sign of the vertical delta |
| CameraState.WheelAll | src/App/camera.cpp:79-86 | a run of wheel events in order; stated by WheelAllCounts |
| CameraState.WheelAllCounts | src/App/camera.cpp:79-86 | a run of wheel events adds 3*speed per notch up minus 3*speed per notch down, in any order |
| CameraState.Advance | src/App/camera.cpp:44-47 | the position update of update(); stated by AdvanceStill, AdvanceAdditive and AdvanceForward |
| CameraState.AdvanceStill | src/App/camera.cpp:44-47 | with nothing pending the position stays put |
| CameraState.AdvanceAdditive | src/App/camera.cpp:44-46 | movement queued in two parts moves as far as the sum |
| CameraState.AdvanceForward | src/App/camera.cpp:44 | pure forward movement travels along the orientation by exactly that amount |
| CameraState.AspectRatio | src/App/camera.cpp:11 | aspect times height is width, and it is positive iff the width is |
| CameraState.SquareViewport | src/App/camera.cpp:11 | an 800 by 800 viewport has aspect 1 and 800 by 400 has aspect 2 |
| CameraState.Camera.constructor | src/App/camera.cpp:7-13 | the camera keeps the size and position given, derives the aspect ratio, and keeps every other field's declared value |
| CameraState.Camera.MousePressEvent | src/App/camera.cpp:59-62 | only the recorded cursor changes |
| CameraState.Camera.MouseMove | src/App/camera.cpp:64-73 | the pending input follows Dragged iff exactly the left button is held, and nothing else changes |
| CameraState.Camera.Resize | src/App/camera.cpp:75-78 | only the aspect ratio changes; the stored width and height stay |
| CameraState.Camera.WheelEvent | src/App/camera.cpp:79-86 | only the pending z-movement changes, by WheelStep |
| CameraState.Camera.Update | src/App/camera.cpp:23-53 | the orientation is rotated by both pending angles, the view looks from the old position, the position advances by the pending movement along the new vectors, the pending input is cleared and the matrices are returned |

## Left out

- Console output (warnings, "vaa missing", unexpected bit depths) is not modelled. The branches that print are modelled and simply issue no command.
- `loadModel`, `onInit` (shaders, uniform lookup, GL state setup), the destructor, `onResize`'s viewport call and the uniform uploads in `onRender` are not modelled. They call into Qt and tinygltf code that is not part of this model.
- `Accessor::ByteStride` comes from tinygltf, which is not part of this model. The stride argument of `glVertexAttribPointer` is therefore not recorded.
- `glBindBuffer` before each upload and draw, `glBindTexture`, `glPixelStorei` and the `glTexParameter` calls are not recorded in the trace. `glBufferData` and `glTexImage2D` record their target, name and sizes, but not the bytes.
- `&buffer.data.at(0)` and `&image.image.at(0)` throw on an empty buffer or image. That failure is not modelled. Buffer and image contents are not part of the document model.
- Indexing `model.accessors`, `model.bufferViews`, `model.images`, `model.scenes` and `model.nodes` without a check is undefined behaviour in the source. The model requires those indices to be in range (`WellFormed`, `Tree`). The asserts at Window.cpp:169 and 182 state the same for nodes.
- Termination of the recursive walk relies on the node graph being a tree. The model takes a rank per node as a ghost argument (`Tree`) instead of handling cyclic documents, which would recurse forever in the source.
- A primitive's attribute map is taken as a sequence already in the map's iteration order.
- Float arithmetic is modelled with exact reals, and `size_t`/`uint` counters with unbounded naturals. Rounding errors and wrap-around are not captured.
- FrameStats.RoundedFps: the rate is rounded exactly from the integer millisecond count. The source divides in single-precision floats first.
- CameraState.Camera.Resize: requires a non-zero height, because a float division by zero (infinity or NaN) has no exact-real counterpart.
- CameraState.Camera.constructor: requires a non-zero height for the same reason. The values the camera's declaration gives its other fields come from camera.h, which is not part of this model, so they are a constructor argument (`Declared`).
- `update()` in `onRender` (the redraw request) is counted in `redrawRequests`. Event-loop scheduling is not modelled.
- SceneBinder.UploadViews: its own contract states the names and the map; the commands it appends are stated by BinderCommands.UploadViewsCommands and UploadsFromContents, kept apart because they are costly to prove together.
- SceneBinder.BindAttribs: its own contract states the map effects; the commands it appends are stated by BinderCommands.BindAttribsCommands and AttribCmdsEnables, kept apart for the same reason.
- FrameStats.RenderedAll: runs only frames whose draw succeeds; a frame whose draw throws is covered by Window.OnRender alone.
- The elapsed timer is a parameter `now`, in milliseconds. Reading it and restarting it happen at the same instant.
- Qt event objects are reduced to the values the handlers read: the button state, the cursor position and the wheel's vertical delta.
- The geometry library (glm rotation, normalisation, `QMatrix4x4::lookAt`/`perspective`, the right-vector transform) is taken as given functions in `Geometry`. Their results are not computed.
- The `updateFPS` signal is modelled as appending the value to `reports`. Its receiver is not modelled.

## Findings

| source | as written | input that shows it | evidently intended | confidence | as-written member | corrected member |
|---|---|---|---|---|---|---|
| src/App/Window.h:99 | the initial light position is `{DEFAULT_X, 2, DEFAULT_Z / 100}`: z is scaled to the slot's hundredths, x is not | the x slider starts at DEFAULT_X = 90, yet the light starts at x = 90; the first move of that slider to 91 puts it at x = 0.91 | x starts at DEFAULT_X / 100 = 0.9, as `setLightX` would store for the slider's initial value | medium, not executed | FrameStats.DeclaredLightDisagreesWithSlider | FrameStats.InitialLightMatchesSliders |
