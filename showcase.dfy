/** The scene code's module state as an object. Its fields are the module
    variables the click handler and the frame read or change, plus the log
    of library calls. Its constructor is loading the module (which runs
    `init`). Its methods are `init`'s three sections, the click handler and
    its two blocks, `update` and one animation frame, each proved to do
    what the matching function of module Reveal describes, and the one-call
    helpers they use, each stating its effect on the fields and the log. */
module Showcase {
  import opened Backend
  import opened Setup
  import opened Reveal

  class SceneApp {
    var scene: set<Node>
    var world: Option<set<BodyId>>
    var curtainMesh: Option<Mesh>
    var curtainBody: Option<Body>
    var curtainRemoved: bool
    /** Every call made into the rendering and physics libraries so far. */
    var calls: seq<Call>

    function Snap(): Snapshot
      reads this
    {
      Snapshot(scene, world, curtainMesh, curtainBody, curtainRemoved, calls)
    }

    ghost predicate Valid()
      reads this
    {
      Invariant(Snap())
    }

    /** Loads the module: the top-level variables start unset and the
        reveal flag false, then `init` builds the scene and the world and
        animates the first frame with the clock's first delta. */
    constructor (firstDelta: real)
      ensures Valid()
      ensures Snap() == Initial(firstDelta)
    {
      scene, world := {}, None;
      curtainMesh, curtainBody := None, None;
      curtainRemoved := false;
      calls := [];
      new;
      Init(firstDelta);
    }

    /** `init`: lights, floor and pedestal; the physics world and its ground;
        the curtain's mesh and body; then the first frame. */
    method Init(firstDelta: real)
      requires Snap() == Snapshot({}, None, None, None, false, [])
      modifies this
      ensures Snap() == Initial(firstDelta)
    {
      ComposeStaticScene();
      CreateWorld();
      CreateCurtain();
      assert calls == SetupCalls();
      Animate(firstDelta);
    }

    /** Ambient light, floor, pedestal, spot light and the spot light's
        target, which is the pedestal again. */
    method ComposeStaticScene()
      requires Snap() == Snapshot({}, None, None, None, false, [])
      modifies this
      ensures Snap() == Snapshot(StaticNodes, None, None, None, false, SetupCalls()[..5])
    {
      AddToScene(AmbientLight);
      AddToScene(Floor);
      AddToScene(Pedestal);
      AddToScene(SpotLight);
      AddToScene(Pedestal);
    }

    /** The physics world, holding the ground body. */
    method CreateWorld()
      requires Snap() == Snapshot(StaticNodes, None, None, None, false, SetupCalls()[..5])
      modifies this
      ensures Snap() == Snapshot(StaticNodes, Some({GroundBody}), None, None, false, SetupCalls()[..6])
    {
      world := Some({});
      AddBodyToWorld(GroundBody);
      assert SetupCalls()[..6] == SetupCalls()[..5] + [AddBody(GroundBody)];
      assert world.value == {GroundBody};
    }

    /** The curtain's mesh, added to the scene, and its body, added to the world. */
    method CreateCurtain()
      requires Snap() == Snapshot(StaticNodes, Some({GroundBody}), None, None, false, SetupCalls()[..6])
      modifies this
      ensures Snap() == Snapshot(StaticNodes + {Curtain}, Some({GroundBody, CurtainBody}),
                                 Some(SetupCurtainMesh()), Some(SetupCurtainBody()), false, SetupCalls())
    {
      curtainMesh := Some(SetupCurtainMesh());
      AddToScene(Curtain);
      curtainBody := Some(SetupCurtainBody());
      AddBodyToWorld(CurtainBody);
      assert SetupCalls() == SetupCalls()[..6] + [SceneAdd(Curtain), AddBody(CurtainBody)];
      assert world.value == {GroundBody, CurtainBody};
    }

    /** The click handler. */
    method Click()
      modifies this
      ensures Snap() == ClickStep(old(Snap()))
      ensures old(Valid()) ==> Valid()
    {
      if curtainRemoved {
        return;
      }
      curtainRemoved := true;
      DisposeCurtainMesh();
      DetachCurtainBody();
    }

    /** The click handler's mesh half: out of the scene, its geometry, map
        and material released, the reference dropped. */
    method DisposeCurtainMesh()
      modifies this
      ensures Snap() == DropCurtainMesh(old(Snap()))
    {
      if curtainMesh.Some? {
        var mesh := curtainMesh.value;
        RemoveFromScene(mesh.node);
        DisposeResource(GeometryRes(mesh.geometry));
        if mesh.material.colorMap.Some? {
          DisposeResource(TextureRes(mesh.material.colorMap.value));
        }
        DisposeResource(MaterialRes(mesh.material));
        curtainMesh := None;
        assert calls == old(calls) + MeshTeardownCalls(mesh);
      }
    }

    /** The click handler's body half: out of the world, the reference
        dropped, when there is both a body and a world. */
    method DetachCurtainBody()
      modifies this
      ensures Snap() == DropCurtainBody(old(Snap()))
    {
      if curtainBody.Some? && world.Some? {
        RemoveBodyFromWorld(curtainBody.value.id);
        curtainBody := None;
      }
    }

    /** `update`: steps the physics world, when there is one. */
    method Update(delta: real)
      modifies this
      ensures Snap() == old(Snap()).(calls := old(calls) + UpdateCalls(old(world).Some?, delta))
    {
      if world.Some? {
        StepWorld(delta);
      }
    }

    /** `animate`: one frame, the update and then the render. */
    method Animate(delta: real)
      modifies this
      ensures Snap() == FrameStep(old(Snap()), delta)
      ensures old(Valid()) ==> Valid()
    {
      Update(delta);
      RenderScene();
    }

    // The library calls the handlers make.

    method AddToScene(n: Node)
      modifies this
      ensures Snap() == old(Snap()).(scene := old(scene) + {n}, calls := old(calls) + [SceneAdd(n)])
    {
      scene := scene + {n};
      calls := calls + [SceneAdd(n)];
    }

    method RemoveFromScene(n: Node)
      modifies this
      ensures Snap() == old(Snap()).(scene := old(scene) - {n}, calls := old(calls) + [SceneRemove(n)])
    {
      scene := scene - {n};
      calls := calls + [SceneRemove(n)];
    }

    method AddBodyToWorld(b: BodyId)
      requires world.Some?
      modifies this
      ensures Snap() == old(Snap()).(world := Some(old(world).value + {b}), calls := old(calls) + [AddBody(b)])
    {
      world := Some(world.value + {b});
      calls := calls + [AddBody(b)];
    }

    method RemoveBodyFromWorld(b: BodyId)
      requires world.Some?
      modifies this
      ensures Snap() == old(Snap()).(world := Some(old(world).value - {b}), calls := old(calls) + [RemoveBody(b)])
    {
      world := Some(world.value - {b});
      calls := calls + [RemoveBody(b)];
    }

    method DisposeResource(r: Resource)
      modifies this
      ensures Snap() == old(Snap()).(calls := old(calls) + [Dispose(r)])
    {
      calls := calls + [Dispose(r)];
    }

    method StepWorld(delta: real)
      requires world.Some?
      modifies this
      ensures Snap() == old(Snap()).(calls := old(calls) + [Step(FixedStep, delta, MaxSubSteps)])
    {
      calls := calls + [Step(FixedStep, delta, MaxSubSteps)];
    }

    method RenderScene()
      modifies this
      ensures Snap() == old(Snap()).(calls := old(calls) + [Render])
    {
      calls := calls + [Render];
    }
  }
}
