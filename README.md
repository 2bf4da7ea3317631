# Curtain reveal scene: state machine and scene/world bookkeeping

`main.js` builds a small three.js scene. It has an ambient light, a floor, a
pedestal and a spot light aimed at the pedestal. A box-shaped "curtain" hides
the pedestal. A cannon-es physics world mirrors the scene with a ground plane
and a box body for the curtain. The first click removes the curtain from both
the scene and the world and releases its rendering resources. Every animation
frame steps the physics world, then renders.

This project models that core in Dafny. The two libraries are black boxes:

- the scene is the set of nodes it holds;
- the physics world is the set of bodies it holds, or null;
- the calls that change the scene or the world (scene add/remove,
  addBody/removeBody), the dispose calls, and every step and render are
  appended to one call log;
- the objects the code constructs and configures (meshes, materials,
  bodies) are values, built once in module `Setup`. Other library calls
  are listed under "Left out".

Modules:

- `Backend` (backend.dfy): the values passed to the libraries (vectors,
  geometries, materials, meshes, bodies, resources) and the call log. It also
  has functions that replay a log into a scene, a world, and the list of
  released resources.
- `Setup` (setup.dfy): the objects and constants `init` creates. Their
  contracts state how the curtain's mesh and body agree, and how the curtain
  sits over the pedestal.
- `Reveal` (reveal.dfy): the module state as a `Snapshot` value, and the pure
  steps `Initial`, `ClickStep` and `FrameStep`, plus `Run` for any sequence of
  clicks and frames. It defines the invariant `Invariant` (made of `Paired`,
  `Settled`, `Recorded` and `StepsPrecedeRenders`) and the lemmas about all
  of these.
- `Showcase` (showcase.dfy): class `SceneApp`. Its fields are the module
  variables `scene`, `world`, `curtainMesh`, `curtainBody` and
  `curtainRemoved` (main.js:5-8), plus the call log. Its constructor is loading the module. It runs
  `Init`, which calls `ComposeStaticScene`, `CreateWorld` and `CreateCurtain`
  and then animates the first frame; together they are proved to reach
  `Initial`. `Click` and `Animate` are the click handler and one frame,
  written step by step like the source. Each is proved equal to `ClickStep`
  or `FrameStep` and to keep `Valid()`. `Update` is proved to append exactly
  `UpdateCalls`, the step call when the world is non-null. `Click` runs
  `DisposeCurtainMesh` and `DetachCurtainBody`, its two guarded blocks,
  each proved equal to `DropCurtainMesh` or `DropCurtainBody`. Seven small
  methods (`AddToScene`, `RemoveFromScene`, `AddBodyToWorld`,
  `RemoveBodyFromWorld`, `DisposeResource`, `StepWorld`, `RenderScene`) make
  one library call each, and each states its effect on the fields and the
  log.

Facts about the code that shape the model:

- The pedestal has no physics body. The world holds only the ground and the
  curtain.
- The spot light's target is the pedestal itself. So `init` adds the pedestal
  to the scene twice, and the second add leaves the set of nodes unchanged.
- `init` renders one frame before it returns (main.js:186). So the log after
  start-up already ends with a step and a render.
- Once `init` has run, `world` is never null. So the null guards in the click
  handler and in `update` never fire in a real session (`SessionOutcome`).
  The pure steps still model the null branch.
- There is no asset loader or material normaliser in this source. Neither is
  modelled.

## Model

| member | source | states |
|---|---|---|
| Setup.SetupFloor | main.js:67-77 | The floor is a 40 x 40 plane at the origin, laid flat by a rotation of -pi/2 about x. |
| Setup.SetupPedestal | main.js:79-91 | The pedestal's bottom is on the floor, and its top is at the pedestal height 0.8. |
| Setup.SetupCurtainMesh | main.js:115-149 | The curtain mesh is a 4.5 x 4 x 8.5 box at (-6, curtainY, 0) with curtainY = 3. Its bottom is 0.2 above the pedestal's top. Seen from above, it covers the pedestal. Its material's map is the curtain texture. |
| Setup.SetupGroundBody | main.js:106-113 | The ground body is an immovable plane. Its position and rotation equal the floor mesh's. |
| Setup.SetupCurtainBody | main.js:151-164 | The curtain body is immovable. Its half-extents are curtainSize/2 (twice them is the mesh's box size), and its position and rotation equal the curtain mesh's. |
| Reveal.Initial | main.js:5-187 | The state after start-up satisfies the invariant. The flag is false, the curtain mesh is in the scene, the curtain body is in the world, and the static nodes and ground body are present. |
| Reveal.InitialRecorded | main.js:63-200 | Replaying the calls of `init` and its first frame gives exactly the static nodes plus the curtain, and exactly the ground and curtain bodies. Nothing is released, and the one render follows a fixed step. |
| Reveal.ClickStep | main.js:167-182 | After a click the flag is set. A click when the flag is already set changes nothing, log included. The first click clears the mesh reference, and clears the body reference when the world exists. The click removes only the curtain's node from the scene and only its body from the world, and adds nothing. It keeps the invariant, pairing included. From an invariant state, the first click appends exactly the teardown calls: remove the curtain node, dispose geometry, map and material, remove the curtain body. It reaches exactly the state with the flag set, only the static nodes in the scene, only the ground body in the world, and both references unset. |
| Reveal.Teardown | main.js:171-181 | Afterwards the mesh reference is unset, and the body reference is unset while the world exists. The scene loses exactly the referenced mesh's node, and the world exactly the referenced body. The flag and the world's existence are unchanged, and the old log is a prefix of the new one. |
| Reveal.TeardownIdempotent | main.js:171-181 | Tearing down twice leaves the same state as tearing down once, log included: the second pass finds no reference left to act on. |
| Reveal.DropCurtainMesh | main.js:171-177 | With no mesh reference, nothing changes. With one, its node leaves the scene, the reference is unset, and the log gains the node's removal and the disposal of what the mesh owns. Nothing else changes. |
| Reveal.DropCurtainBody | main.js:178-181 | Unless both the body reference and the world are set, nothing changes. Otherwise the body leaves the world, the reference is unset, and the log gains the body's removal. Nothing else changes. |
| Reveal.RevealKeepsInvariant | main.js:171-181 | From any invariant state with the curtain present, the state with the flag set, only the static nodes, only the ground body, no references, and the old log followed by the curtain's teardown calls satisfies the invariant. `ClickStep`'s contract shows this is the state the first click reaches. |
| Reveal.TeardownRecorded | main.js:171-181 | The calls of the first click take the curtain out of the replayed scene and world. They record the release of geometry, map and material, in that order, and no render. |
| Reveal.FrameStep | main.js:189-200 | A frame changes only the log. It appends a render last. It appends a step (1/60, the given delta unchanged, 3) just before the render exactly when the world is non-null. It keeps the invariant. |
| Reveal.FrameRecorded | main.js:195-200 | The calls of one frame leave the replayed scene, world and released resources as they were, and keep every render right after a fixed step. |
| Reveal.Run | main.js:167-200 | Any sequence of clicks and frames keeps the invariant. |
| Reveal.ClicksCollapse | main.js:168-169 | One or more clicks in a row leave exactly the state one click leaves, log included. |
| Reveal.RunSettles | main.js:168-200 | For clicks and frames in any order, everything but the log ends as after one click if any click happened, and unchanged otherwise. |
| Reveal.FlagIsPermanent | main.js:168-169 | Once set, the flag stays set through any later events. |
| Reveal.SessionOutcome | main.js:149-200 | From start-up through any events: the world is non-null; the flag is set exactly when some click happened; the mesh is in the scene and the body in the world exactly when no click happened, always together; the scene otherwise holds only the static nodes and the world only the ground; the released resources are geometry, map, material (in that order) after a click and none otherwise; every render follows a fixed step. |
| Reveal.DisposedAtMostOnce | main.js:173-175 | In any session, no resource is released more than once. |
| Reveal.ReleasedOnce | main.js:173-175 | A mesh's geometry, map and material are different resources, so releasing them releases each once. |
| Showcase.SceneApp.constructor | main.js:5-11 | Loading the module gives exactly the state `Initial` describes, and `Valid()` holds. |
| Showcase.SceneApp.Init | main.js:13-187 | Starting from unset module variables, `init` reaches the `Initial` state. |
| Showcase.SceneApp.ComposeStaticScene | main.js:63-99 | The ambient light, floor, pedestal, spot light and spot target (the pedestal again) are added to the scene, in that order. |
| Showcase.SceneApp.CreateWorld | main.js:101-113 | The world is created and holds only the ground body. |
| Showcase.SceneApp.CreateCurtain | main.js:115-164 | The curtain mesh is set and added to the scene. Then the curtain body is set and added to the world. |
| Showcase.SceneApp.Click | main.js:167-182 | The handler's new state is `ClickStep` of the old state, and it keeps `Valid()`. |
| Showcase.SceneApp.DisposeCurtainMesh | main.js:171-177 | The mesh block's new state is `DropCurtainMesh` of the old state. |
| Showcase.SceneApp.DetachCurtainBody | main.js:178-181 | The body block's new state is `DropCurtainBody` of the old state. |
| Showcase.SceneApp.Update | main.js:189-193 | `update` appends one fixed step with the given delta when the world is non-null, and changes nothing else. |
| Showcase.SceneApp.Animate | main.js:195-200 | The frame's new state is `FrameStep` of the old state, and it keeps `Valid()`. |

## Left out

- Texture loading for the sky box and the curtain (main.js:19-36, 123-135): these are callbacks that run later and only touch rendering settings. The curtain material's map is whatever the texture loader returns, and it returns it at once, so the model always gives the curtain a map.
- The curtain material's metalness is not set in the source. The model uses 0.0, the library's default.
- Camera, renderer, orbit controls, shadow and colour-space settings, and the resize handler (main.js:38-61, 184, 202-207): rendering plumbing and DOM events.
- The module variables `camera`, `renderer`, `controls`, `pedestal` and `spotLight` (main.js:5-8): they are not fields of `SceneApp`. The render call is logged without the renderer and camera it uses, the resize handler that reads them is left out (below), and the pedestal and spot light are present only as scene nodes.
- Light colours, intensities and the spot light's cone and position (main.js:64, 94-96): scene nodes are modelled as identities only.
- Scheduling by `requestAnimationFrame` and timing by `THREE.Clock` (main.js:9, 196-197): the clock's delta is a parameter, and a session is a list of events.
- What `world.step` computes: gravity, collision and sub-stepping inside cannon-es, all in floating point. A step is a logged call carrying its three arguments. The model, like the source, does not cap delta.
- The order of a node's children in three.js: the scene is a set. In three.js, re-adding the pedestal moves it to the end of the children list; the model does not track that order.
- Console output (main.js:14, 29, 33, 126, 133, 170).
