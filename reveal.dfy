/** The reveal state machine and the per-frame step, as functions on a
    snapshot of the scene code's module state. The class in module Showcase
    is proved to follow these functions; the lemmas here say what they promise. */
module Reveal {
  import opened Backend
  import opened Setup

  /** The physics world advances in fixed steps of 1/60 s ... */
  const FixedStep: real := 1.0 / 60.0
  /** ... with at most three sub-steps per frame. */
  const MaxSubSteps: nat := 3

  /** The module state: the scene, the physics world (null until created),
      the two curtain references, the reveal flag, and every library call
      made so far. */
  datatype Snapshot = Snapshot(
    scene: set<Node>,
    world: Option<set<BodyId>>,
    curtainMesh: Option<Mesh>,
    curtainBody: Option<Body>,
    curtainRemoved: bool,
    calls: seq<Call>)

  /** The user's click, or one animation frame with the clock's delta. */
  datatype Event = Click | Frame(delta: real)

  function Bodies(world: Option<set<BodyId>>): set<BodyId> {
    if world.Some? then world.value else {}
  }

  function NodesOf(mesh: Option<Mesh>): set<Node> {
    if mesh.Some? then {mesh.value.node} else {}
  }

  function BodyIdsOf(body: Option<Body>): set<BodyId> {
    if body.Some? then {body.value.id} else {}
  }

  /** The nodes that stay in the scene for the whole session. */
  const StaticNodes: set<Node> := {AmbientLight, Floor, Pedestal, SpotLight}

  /** The resources a mesh owns, in the order the reveal releases them:
      geometry, then the texture map when there is one, then the material. */
  function Released(m: Mesh): seq<Resource> {
    [GeometryRes(m.geometry)]
    + (if m.material.colorMap.Some? then [TextureRes(m.material.colorMap.value)] else [])
    + [MaterialRes(m.material)]
  }

  /** The calls `init` makes. The spot light's target is the pedestal
      itself, so the pedestal is added twice. */
  function SetupCalls(): seq<Call> {
    [ SceneAdd(AmbientLight), SceneAdd(Floor), SceneAdd(Pedestal), SceneAdd(SpotLight),
      SceneAdd(Pedestal), AddBody(GroundBody), SceneAdd(Curtain), AddBody(CurtainBody) ]
  }

  /** The calls of `update`: one physics step when there is a world. */
  function UpdateCalls(worldPresent: bool, delta: real): seq<Call> {
    if worldPresent then [Step(FixedStep, delta, MaxSubSteps)] else []
  }

  /** The calls of one animation frame: the update, then the render. */
  function FrameCalls(worldPresent: bool, delta: real): seq<Call> {
    UpdateCalls(worldPresent, delta) + [Render]
  }

  /** One physics call with the fixed step and the sub-step bound. */
  predicate IsFixedStep(c: Call) {
    c.Step? && c.fixedStep == FixedStep && c.maxSubSteps == MaxSubSteps
  }

  /** Every render call comes straight after a physics step. */
  predicate StepsPrecedeRenders(calls: seq<Call>) {
    forall i :: 0 <= i < |calls| && calls[i] == Render ==> 0 < i && IsFixedStep(calls[i - 1])
  }

  /** The curtain's mesh is in the scene exactly when its body is in the world,
      and each is there exactly when the code still holds its reference. */
  predicate Paired(s: Snapshot) {
    && (s.curtainMesh.Some? <==> Curtain in s.scene)
    && (s.curtainBody.Some? <==> CurtainBody in Bodies(s.world))
    && (Curtain in s.scene <==> CurtainBody in Bodies(s.world))
  }

  /** The two states the module can be in once `init` has run. */
  predicate Settled(s: Snapshot) {
    && s.world.Some?
    && if !s.curtainRemoved then
         && s.curtainMesh == Some(SetupCurtainMesh())
         && s.curtainBody == Some(SetupCurtainBody())
         && s.scene == StaticNodes + {Curtain}
         && s.world.value == {GroundBody, CurtainBody}
         && Disposals(s.calls) == []
       else
         && s.curtainMesh.None?
         && s.curtainBody.None?
         && s.scene == StaticNodes
         && s.world.value == {GroundBody}
         && Disposals(s.calls) == Released(SetupCurtainMesh())
  }

  /** The scene and the world are what the logged calls made of them. */
  predicate Recorded(s: Snapshot) {
    && s.scene == SceneReplay({}, s.calls)
    && Bodies(s.world) == WorldReplay({}, s.calls)
  }

  predicate Invariant(s: Snapshot) {
    Paired(s) && Settled(s) && Recorded(s) && StepsPrecedeRenders(s.calls)
  }

  /** The state right after the module has loaded and `init` has run,
      including the one frame `init` animates before it returns. */
  function Initial(firstDelta: real): (s: Snapshot)
    ensures Invariant(s)
    ensures !s.curtainRemoved && Curtain in s.scene && CurtainBody in Bodies(s.world)
    ensures StaticNodes <= s.scene && GroundBody in Bodies(s.world)
  {
    var s := Snapshot(StaticNodes + {Curtain}, Some({GroundBody, CurtainBody}),
                      Some(SetupCurtainMesh()), Some(SetupCurtainBody()), false,
                      SetupCalls() + FrameCalls(true, firstDelta));
    InitialRecorded(firstDelta);
    s
  }

  lemma InitialRecorded(firstDelta: real)
    ensures SceneReplay({}, SetupCalls() + FrameCalls(true, firstDelta)) == StaticNodes + {Curtain}
    ensures WorldReplay({}, SetupCalls() + FrameCalls(true, firstDelta)) == {GroundBody, CurtainBody}
    ensures Disposals(SetupCalls() + FrameCalls(true, firstDelta)) == []
    ensures StepsPrecedeRenders(SetupCalls() + FrameCalls(true, firstDelta))
  {
    SetupSceneRecorded();
    SetupWorldRecorded();
    NoRenderOrdered(SetupCalls());
    AppendKeepsOrder([], SetupCalls());
    assert [] + SetupCalls() == SetupCalls();
    FrameRecorded(SetupCalls(), firstDelta);
  }

  /** The calls of `init` leave the static nodes and the curtain in the scene. */
  lemma SetupSceneRecorded()
    ensures SceneReplay({}, SetupCalls()) == StaticNodes + {Curtain}
  {
  }

  /** The calls of `init` leave the ground and curtain bodies in the world
      and release nothing. */
  lemma SetupWorldRecorded()
    ensures WorldReplay({}, SetupCalls()) == {GroundBody, CurtainBody}
    ensures Disposals(SetupCalls()) == []
  {
  }

  /** A log without renders trivially keeps the order. */
  lemma NoRenderOrdered(calls: seq<Call>)
    requires Render !in calls
    ensures StepsPrecedeRenders(calls)
  {
  }

  /** Two logs that each keep renders after steps still do so joined. */
  lemma AppendKeepsOrder(calls: seq<Call>, tail: seq<Call>)
    requires StepsPrecedeRenders(calls)
    requires StepsPrecedeRenders(tail)
    ensures StepsPrecedeRenders(calls + tail)
  {
    var after := calls + tail;
    forall i | 0 <= i < |after| && after[i] == Render
      ensures 0 < i && IsFixedStep(after[i - 1])
    {
      if i >= |calls| {
        var j := i - |calls|;
        assert tail[j] == Render;
        assert j > 0 && IsFixedStep(tail[j - 1]);
        assert after[i - 1] == tail[j - 1];
      } else {
        assert after[i] == calls[i];
        assert after[i - 1] == calls[i - 1];
      }
    }
  }

  /** Appending one frame's calls to a log leaves the replays and the
      released resources as they were and keeps renders after steps. */
  lemma FrameRecorded(calls: seq<Call>, delta: real)
    requires StepsPrecedeRenders(calls)
    ensures StepsPrecedeRenders(calls + FrameCalls(true, delta))
    ensures SceneReplay({}, calls + FrameCalls(true, delta)) == SceneReplay({}, calls)
    ensures WorldReplay({}, calls + FrameCalls(true, delta)) == WorldReplay({}, calls)
    ensures Disposals(calls + FrameCalls(true, delta)) == Disposals(calls)
  {
    var step := Step(FixedStep, delta, MaxSubSteps);
    var c1 := calls + [step];  Snoc({}, {}, calls, step);
    var c2 := c1 + [Render];   Snoc({}, {}, c1, Render);
    assert c2 == calls + FrameCalls(true, delta);
    AppendKeepsOrder(calls, [step, Render]);
  }

  /** The calls the reveal makes for the curtain mesh. */
  function MeshTeardownCalls(m: Mesh): seq<Call> {
    [SceneRemove(m.node)] + DisposeCalls(Released(m))
  }

  function DisposeCalls(rs: seq<Resource>): (calls: seq<Call>)
    ensures |calls| == |rs|
    ensures forall i :: 0 <= i < |rs| ==> calls[i] == Dispose(rs[i])
  {
    if rs == [] then [] else [Dispose(rs[0])] + DisposeCalls(rs[1..])
  }

  /** The click handler. The first click sets the flag, takes the curtain
      mesh out of the scene, releases its resources and drops the reference,
      then takes the curtain body out of the world and drops that reference.
      Every later click returns at once. */
  function ClickStep(s: Snapshot): (r: Snapshot)
    ensures r.curtainRemoved
    ensures s.curtainRemoved ==> r == s
    ensures !s.curtainRemoved ==> r.curtainMesh.None? && (s.world.Some? ==> r.curtainBody.None?)
    ensures r.scene <= s.scene && s.scene - NodesOf(s.curtainMesh) <= r.scene
    ensures r.world.Some? == s.world.Some?
    ensures Bodies(r.world) <= Bodies(s.world) && Bodies(s.world) - BodyIdsOf(s.curtainBody) <= Bodies(r.world)
    ensures Invariant(s) ==> Invariant(r)
    ensures Invariant(s) && !s.curtainRemoved ==> r.calls == s.calls + TeardownCalls()
    ensures Invariant(s) && !s.curtainRemoved ==>
      r == Snapshot(StaticNodes, Some({GroundBody}), None, None, true, s.calls + TeardownCalls())
  {
    if s.curtainRemoved then s
    else
      var r := Teardown(s.(curtainRemoved := true));
      assert Invariant(s) ==> Invariant(r) && r.calls == s.calls + TeardownCalls() by {
        if Invariant(s) {
          assert s.scene - {Curtain} == StaticNodes;
          assert s.world.value - {CurtainBody} == {GroundBody};
          RevealKeepsInvariant(s, r);
          assert s.calls + MeshTeardownCalls(SetupCurtainMesh()) + [RemoveBody(CurtainBody)]
              == s.calls + TeardownCalls();
        }
      }
      r
  }

  /** main.js:171-181, the work of the first click once the flag is set: the
      mesh half, then the body half. Afterwards no mesh reference is left,
      and no body reference either while the world exists. */
  function Teardown(s: Snapshot): (r: Snapshot)
    ensures r.curtainMesh.None? && (r.world.Some? ==> r.curtainBody.None?)
    ensures r.world.Some? == s.world.Some? && r.curtainRemoved == s.curtainRemoved
    ensures r.scene == s.scene - NodesOf(s.curtainMesh)
    ensures Bodies(r.world) == Bodies(s.world) - BodyIdsOf(s.curtainBody)
    ensures |s.calls| <= |r.calls| && r.calls[..|s.calls|] == s.calls
  {
    DropCurtainBody(DropCurtainMesh(s))
  }

  /** Tearing down a second time finds nothing left to drop. */
  lemma TeardownIdempotent(s: Snapshot)
    ensures Teardown(Teardown(s)) == Teardown(s)
  {
  }

  /** main.js:171-177: when the mesh reference is set, take the mesh out of
      the scene, release what it owns and drop the reference. */
  function DropCurtainMesh(s: Snapshot): (r: Snapshot)
    ensures r.curtainMesh.None?
    ensures s.curtainMesh.None? ==> r == s
    ensures s.curtainMesh.Some? ==>
      && r.scene == s.scene - {s.curtainMesh.value.node}
      && r.calls == s.calls + MeshTeardownCalls(s.curtainMesh.value)
      && r.(scene := s.scene, curtainMesh := s.curtainMesh, calls := s.calls) == s
  {
    if s.curtainMesh.Some? then
      var m := s.curtainMesh.value;
      s.(scene := s.scene - {m.node}, curtainMesh := None, calls := s.calls + MeshTeardownCalls(m))
    else s
  }

  /** main.js:178-181: when both the body reference and the world are set,
      take the body out of the world and drop the reference. */
  function DropCurtainBody(s: Snapshot): (r: Snapshot)
    ensures s.world.Some? ==> r.curtainBody.None?
    ensures !(s.curtainBody.Some? && s.world.Some?) ==> r == s
    ensures s.curtainBody.Some? && s.world.Some? ==>
      && r.world == Some(s.world.value - {s.curtainBody.value.id})
      && r.calls == s.calls + [RemoveBody(s.curtainBody.value.id)]
      && r.(world := s.world, curtainBody := s.curtainBody, calls := s.calls) == s
  {
    if s.curtainBody.Some? && s.world.Some? then
      var b := s.curtainBody.value;
      s.(world := Some(s.world.value - {b.id}), curtainBody := None, calls := s.calls + [RemoveBody(b.id)])
    else s
  }

  /** What the first click does to an invariant state. */
  lemma RevealKeepsInvariant(s: Snapshot, r: Snapshot)
    requires Invariant(s) && !s.curtainRemoved
    requires r == Snapshot(StaticNodes, Some({GroundBody}), None, None, true,
                           s.calls + MeshTeardownCalls(SetupCurtainMesh()) + [RemoveBody(CurtainBody)])
    ensures Invariant(r)
  {
    TeardownRecorded(s.calls);
  }

  /** The calls of the first click on a state that still holds the curtain. */
  function TeardownCalls(): seq<Call> {
    MeshTeardownCalls(SetupCurtainMesh()) + [RemoveBody(CurtainBody)]
  }

  lemma TeardownCallsAre()
    ensures var m := SetupCurtainMesh();
      TeardownCalls() == [SceneRemove(Curtain), Dispose(GeometryRes(m.geometry)), Dispose(TextureRes(CurtainTexture)),
                          Dispose(MaterialRes(m.material)), RemoveBody(CurtainBody)]
    ensures var m := SetupCurtainMesh();
      Released(m) == [GeometryRes(m.geometry), TextureRes(CurtainTexture), MaterialRes(m.material)]
  {
    var m := SetupCurtainMesh();
    assert Released(m) == [GeometryRes(m.geometry), TextureRes(CurtainTexture), MaterialRes(m.material)];
  }

  /** The log of the first click, appended to the log of a state that still
      holds the curtain, replays to a state without it and records the
      release of the curtain's three resources. */
  lemma TeardownRecorded(calls: seq<Call>)
    requires StepsPrecedeRenders(calls) && Disposals(calls) == []
    requires SceneReplay({}, calls) == StaticNodes + {Curtain}
    requires WorldReplay({}, calls) == {GroundBody, CurtainBody}
    ensures var after := calls + MeshTeardownCalls(SetupCurtainMesh()) + [RemoveBody(CurtainBody)];
      && StepsPrecedeRenders(after)
      && SceneReplay({}, after) == StaticNodes
      && WorldReplay({}, after) == {GroundBody}
      && Disposals(after) == Released(SetupCurtainMesh())
    ensures Render !in TeardownCalls()
  {
    TeardownCallsAre();
    var tail := TeardownCalls();
    assert calls + MeshTeardownCalls(SetupCurtainMesh()) + [RemoveBody(CurtainBody)] == calls + tail;
    TeardownScene(calls);
    TeardownWorld(calls);
    TeardownDisposals(calls);
    NoRenderOrdered(tail);
    AppendKeepsOrder(calls, tail);
  }

  lemma TeardownScene(calls: seq<Call>)
    requires SceneReplay({}, calls) == StaticNodes + {Curtain}
    ensures SceneReplay({}, calls + TeardownCalls()) == StaticNodes
  {
    TeardownCallsAre();
    var t := TeardownCalls();
    var c1 := calls + [t[0]];  Snoc({}, {}, calls, t[0]);
    assert SceneReplay({}, c1) == StaticNodes;
    var c2 := c1 + [t[1]];     Snoc({}, {}, c1, t[1]);
    var c3 := c2 + [t[2]];     Snoc({}, {}, c2, t[2]);
    var c4 := c3 + [t[3]];     Snoc({}, {}, c3, t[3]);
    var c5 := c4 + [t[4]];     Snoc({}, {}, c4, t[4]);
    assert c5 == calls + t;
  }

  lemma TeardownWorld(calls: seq<Call>)
    requires WorldReplay({}, calls) == {GroundBody, CurtainBody}
    ensures WorldReplay({}, calls + TeardownCalls()) == {GroundBody}
  {
    TeardownCallsAre();
    var t := TeardownCalls();
    var c1 := calls + [t[0]];  Snoc({}, {}, calls, t[0]);
    var c2 := c1 + [t[1]];     Snoc({}, {}, c1, t[1]);
    var c3 := c2 + [t[2]];     Snoc({}, {}, c2, t[2]);
    var c4 := c3 + [t[3]];     Snoc({}, {}, c3, t[3]);
    assert WorldReplay({}, c4) == {GroundBody, CurtainBody};
    var c5 := c4 + [t[4]];     Snoc({}, {}, c4, t[4]);
    assert c5 == calls + t;
  }

  lemma TeardownDisposals(calls: seq<Call>)
    requires Disposals(calls) == []
    ensures Disposals(calls + TeardownCalls()) == Released(SetupCurtainMesh())
  {
    TeardownCallsAre();
    var t := TeardownCalls();
    var c1 := calls + [t[0]];  Snoc({}, {}, calls, t[0]);
    var c2 := c1 + [t[1]];     Snoc({}, {}, c1, t[1]);
    var c3 := c2 + [t[2]];     Snoc({}, {}, c2, t[2]);
    var c4 := c3 + [t[3]];     Snoc({}, {}, c3, t[3]);
    var c5 := c4 + [t[4]];     Snoc({}, {}, c4, t[4]);
    assert c5 == calls + t;
  }

  /** One animation frame: `update` steps the world when there is one, then
      the scene is rendered. Only the log changes, and the measured delta is
      passed to the physics step as it is. */
  function FrameStep(s: Snapshot, delta: real): (r: Snapshot)
    ensures r.(calls := s.calls) == s
    ensures |r.calls| > |s.calls| && r.calls[..|s.calls|] == s.calls && r.calls[|r.calls| - 1] == Render
    ensures s.world.Some? <==> (|r.calls| == |s.calls| + 2 && r.calls[|s.calls|] == Step(FixedStep, delta, MaxSubSteps))
    ensures s.world.None? ==> |r.calls| == |s.calls| + 1
    ensures Invariant(s) ==> Invariant(r)
  {
    var r := s.(calls := s.calls + FrameCalls(s.world.Some?, delta));
    assert Invariant(s) ==> Invariant(r) by {
      if Invariant(s) { FrameKeepsInvariant(s, delta); }
    }
    r
  }

  lemma FrameKeepsInvariant(s: Snapshot, delta: real)
    requires Invariant(s)
    ensures Invariant(s.(calls := s.calls + FrameCalls(true, delta)))
  {
    FrameRecorded(s.calls, delta);
  }

  function Apply(s: Snapshot, e: Event): Snapshot {
    match e
    case Click => ClickStep(s)
    case Frame(delta) => FrameStep(s, delta)
  }

  /** The state after the given events, in order. */
  function Run(s: Snapshot, events: seq<Event>): (r: Snapshot)
    ensures Invariant(s) ==> Invariant(r)
    decreases |events|
  {
    if events == [] then s else Run(Apply(s, events[0]), events[1..])
  }

  /** A snapshot without its call log. */
  function Core(s: Snapshot): Snapshot {
    s.(calls := [])
  }

  /** Clicks see only the module state, not the log. */
  lemma ClickIgnoresLog(s: Snapshot, t: Snapshot)
    requires Core(s) == Core(t)
    ensures Core(ClickStep(s)) == Core(ClickStep(t))
  {
  }

  /** Any number of clicks, one or more, leaves exactly the state one click
      leaves: the log included, since later clicks make no call. */
  lemma {:induction false} ClicksCollapse(s: Snapshot, events: seq<Event>)
    requires |events| >= 1
    requires forall i :: 0 <= i < |events| ==> events[i] == Click
    ensures Run(s, events) == ClickStep(s)
    decreases |events|
  {
    if |events| > 1 {
      ClicksCollapse(ClickStep(s), events[1..]);
    }
  }

  /** Frames and clicks in any order: apart from the log, the state is the
      state one click leaves if there was a click, and is unchanged if not. */
  lemma {:induction false} RunSettles(s: Snapshot, events: seq<Event>)
    ensures Core(Run(s, events)) == if Click in events then Core(ClickStep(s)) else Core(s)
    decreases |events|
  {
    if events != [] {
      var next := Apply(s, events[0]);
      RunSettles(next, events[1..]);
      assert Click in events <==> events[0] == Click || Click in events[1..];
      match events[0]
      case Click =>
      case Frame(delta) =>
        ClickIgnoresLog(next, s);
    }
  }

  /** Once set, the flag is never cleared again. */
  lemma FlagIsPermanent(s: Snapshot, events: seq<Event>)
    requires s.curtainRemoved
    ensures Run(s, events).curtainRemoved
  {
    RunSettles(s, events);
  }

  /** What a whole session does, from start-up through any events: the
      world is never null, so the null guards never fire; the
      curtain is gone exactly when some click happened, its three resources
      have been released once each, in order, exactly then, the static
      nodes and the ground body are never touched, and every render
      follows a physics step. */
  lemma SessionOutcome(firstDelta: real, events: seq<Event>)
    ensures var r := Run(Initial(firstDelta), events);
      && r.curtainRemoved == (Click in events)
      && r.world.Some?
      && Paired(r)
      && (Curtain in r.scene <==> Click !in events)
      && (CurtainBody in Bodies(r.world) <==> Click !in events)
      && r.scene - {Curtain} == StaticNodes
      && Bodies(r.world) - {CurtainBody} == {GroundBody}
      && Disposals(r.calls) == (if Click in events then Released(SetupCurtainMesh()) else [])
      && StepsPrecedeRenders(r.calls)
  {
    var s := Initial(firstDelta);
    var r := Run(s, events);
    RunSettles(s, events);
    assert Invariant(r);
    if Click in events {
      assert Core(ClickStep(s)) == Snapshot(StaticNodes, Some({GroundBody}), None, None, true, []);
    } else {
      assert Core(r) == Core(s);
    }
  }

  /** No resource is released twice in a session. */
  lemma DisposedAtMostOnce(firstDelta: real, events: seq<Event>, res: Resource)
    ensures multiset(Disposals(Run(Initial(firstDelta), events).calls))[res] <= 1
  {
    SessionOutcome(firstDelta, events);
    ReleasedOnce(SetupCurtainMesh(), res);
  }

  /** A mesh's resources are pairwise different, so each is released once. */
  lemma ReleasedOnce(m: Mesh, res: Resource)
    ensures multiset(Released(m))[res] <= 1
  {
    var tail := if m.material.colorMap.Some? then [TextureRes(m.material.colorMap.value)] else [];
    assert Released(m) == [GeometryRes(m.geometry)] + tail + [MaterialRes(m.material)];
    assert multiset(Released(m)) == multiset{GeometryRes(m.geometry)} + multiset(tail) + multiset{MaterialRes(m.material)};
  }
}
