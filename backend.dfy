/** The values the scene code hands to the rendering library (three.js) and
    to the physics library (cannon-es), and the log of the calls it makes
    into them. Both libraries are black boxes here: the scene is the set of
    nodes it holds, the physics world the set of bodies it holds. The calls
    that change either, the dispose calls, and every step and render are
    recorded in the log. */
module Backend {

  datatype Option<T> = None | Some(value: T)

  /** A point, a size or a half-extent in scene units. */
  datatype Vec3 = Vec3(x: real, y: real, z: real)

  /** An Euler rotation; each angle is given as a multiple of pi. */
  datatype Euler = Euler(x: real, y: real, z: real)

  datatype Texture = Texture(path: string)

  datatype Geometry =
    | BoxGeometry(size: Vec3)
    | PlaneGeometry(width: real, height: real)

  /** A MeshStandardMaterial: colour as a 24-bit RGB number, an optional
      colour map, and whether both faces are drawn. */
  datatype Material = StandardMaterial(
    color: nat, roughness: real, metalness: real, colorMap: Option<Texture>, doubleSided: bool)

  /** The nodes of the visual scene, named by the part they play in it. */
  datatype Node = AmbientLight | Floor | Pedestal | SpotLight | Curtain

  datatype Mesh = Mesh(node: Node, geometry: Geometry, material: Material, position: Vec3, rotation: Euler)

  /** The bodies of the physics world. */
  datatype BodyId = GroundBody | CurtainBody

  datatype Shape = PlaneShape | BoxShape(halfExtents: Vec3)

  datatype Body = Body(id: BodyId, mass: real, shape: Shape, position: Vec3, rotation: Euler)

  /** A rendering resource that holds a native handle and is released by an
      explicit dispose() call. */
  datatype Resource =
    | GeometryRes(geometry: Geometry)
    | TextureRes(texture: Texture)
    | MaterialRes(material: Material)

  /** One call into a library, in the order the scene code makes it. */
  datatype Call =
    | SceneAdd(node: Node)
    | SceneRemove(node: Node)
    | AddBody(body: BodyId)
    | RemoveBody(body: BodyId)
    | Dispose(resource: Resource)
    | Step(fixedStep: real, delta: real, maxSubSteps: nat)
    | Render

  /** What one call does to the scene's set of nodes. */
  function ApplyToScene(scene: set<Node>, c: Call): set<Node> {
    match c
    case SceneAdd(n) => scene + {n}
    case SceneRemove(n) => scene - {n}
    case _ => scene
  }

  /** The scene obtained by replaying `calls`, in order, on `scene`. */
  function SceneReplay(scene: set<Node>, calls: seq<Call>): set<Node>
    decreases |calls|
  {
    if calls == [] then scene else SceneReplay(ApplyToScene(scene, calls[0]), calls[1..])
  }

  /** What one call does to the world's set of bodies. */
  function ApplyToWorld(bodies: set<BodyId>, c: Call): set<BodyId> {
    match c
    case AddBody(b) => bodies + {b}
    case RemoveBody(b) => bodies - {b}
    case _ => bodies
  }

  /** The world obtained by replaying `calls`, in order, on `bodies`. */
  function WorldReplay(bodies: set<BodyId>, calls: seq<Call>): set<BodyId>
    decreases |calls|
  {
    if calls == [] then bodies else WorldReplay(ApplyToWorld(bodies, calls[0]), calls[1..])
  }

  /** The resources released by `calls`, in the order they were released. */
  function Disposals(calls: seq<Call>): seq<Resource>
    decreases |calls|
  {
    if calls == [] then []
    else (if calls[0].Dispose? then [calls[0].resource] else []) + Disposals(calls[1..])
  }

  /** Replaying two logs one after the other is replaying their concatenation. */
  lemma {:induction false} SceneReplayAppend(scene: set<Node>, a: seq<Call>, b: seq<Call>)
    ensures SceneReplay(scene, a + b) == SceneReplay(SceneReplay(scene, a), b)
    decreases |a|
  {
    if a == [] {
      assert a + b == b;
    } else {
      assert (a + b)[1..] == a[1..] + b;
      SceneReplayAppend(ApplyToScene(scene, a[0]), a[1..], b);
    }
  }

  lemma {:induction false} WorldReplayAppend(bodies: set<BodyId>, a: seq<Call>, b: seq<Call>)
    ensures WorldReplay(bodies, a + b) == WorldReplay(WorldReplay(bodies, a), b)
    decreases |a|
  {
    if a == [] {
      assert a + b == b;
    } else {
      assert (a + b)[1..] == a[1..] + b;
      WorldReplayAppend(ApplyToWorld(bodies, a[0]), a[1..], b);
    }
  }

  /** The resources released by two logs one after the other. */
  lemma {:induction false} DisposalsAppend(a: seq<Call>, b: seq<Call>)
    ensures Disposals(a + b) == Disposals(a) + Disposals(b)
    decreases |a|
  {
    if a == [] {
      assert a + b == b;
    } else {
      assert (a + b)[1..] == a[1..] + b;
      DisposalsAppend(a[1..], b);
    }
  }

  /** Appending one call to a log: the replays take one more step, and a
      dispose call adds its resource to the released ones. */
  lemma Snoc(scene: set<Node>, bodies: set<BodyId>, a: seq<Call>, c: Call)
    ensures SceneReplay(scene, a + [c]) == ApplyToScene(SceneReplay(scene, a), c)
    ensures WorldReplay(bodies, a + [c]) == ApplyToWorld(WorldReplay(bodies, a), c)
    ensures Disposals(a + [c]) == Disposals(a) + (if c.Dispose? then [c.resource] else [])
  {
    SceneReplayAppend(scene, a, [c]);
    WorldReplayAppend(bodies, a, [c]);
    DisposalsAppend(a, [c]);
    assert [c][1..] == [];
  }
}
