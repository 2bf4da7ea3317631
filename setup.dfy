/** The objects `init` builds once at start-up, with their constants, and how
    the curtain's visual and physical halves agree when they are created. */
module Setup {
  import opened Backend

  const PedestalHeight: real := 0.8

  /** The curtain box's full size; its physics box is given by half-extents. */
  const CurtainSize: Vec3 := Vec3(4.5, 4.0, 8.5)

  /** The curtain's centre height: it floats 0.2 above the pedestal's top. */
  const CurtainY: real := PedestalHeight + CurtainSize.y / 2.0 + 0.2

  const CurtainTexture: Texture := Texture("./assets/textures/curtain.jpg")

  const Origin: Vec3 := Vec3(0.0, 0.0, 0.0)
  const Unrotated: Euler := Euler(0.0, 0.0, 0.0)

  /** A rotation of -pi/2 about x: it lays a plane flat in the horizontal. */
  const LieFlat: Euler := Euler(-0.5, 0.0, 0.0)

  function Half(v: Vec3): Vec3 { Vec3(v.x / 2.0, v.y / 2.0, v.z / 2.0) }

  /** The box a body's shape stands for, as full size. */
  function Extent(halfExtents: Vec3): Vec3 { Vec3(2.0 * halfExtents.x, 2.0 * halfExtents.y, 2.0 * halfExtents.z) }

  /** The height of a box mesh's top face. */
  function Top(m: Mesh): real
    requires m.geometry.BoxGeometry?
  {
    m.position.y + m.geometry.size.y / 2.0
  }

  /** The height of a box mesh's bottom face. */
  function Bottom(m: Mesh): real
    requires m.geometry.BoxGeometry?
  {
    m.position.y - m.geometry.size.y / 2.0
  }

  /** Seen from above, box mesh `inner` lies inside box mesh `outer`. */
  predicate CoversFootprint(outer: Mesh, inner: Mesh) {
    && outer.geometry.BoxGeometry? && inner.geometry.BoxGeometry?
    && outer.position.x - outer.geometry.size.x / 2.0 <= inner.position.x - inner.geometry.size.x / 2.0
    && inner.position.x + inner.geometry.size.x / 2.0 <= outer.position.x + outer.geometry.size.x / 2.0
    && outer.position.z - outer.geometry.size.z / 2.0 <= inner.position.z - inner.geometry.size.z / 2.0
    && inner.position.z + inner.geometry.size.z / 2.0 <= outer.position.z + outer.geometry.size.z / 2.0
  }

  /** A physics body mirrors a box mesh: same position, same orientation,
      and a box shape of the same size. */
  predicate MirrorsBox(m: Mesh, b: Body) {
    && m.geometry.BoxGeometry? && b.shape.BoxShape?
    && b.position == m.position
    && b.rotation == m.rotation
    && Extent(b.shape.halfExtents) == m.geometry.size
  }

  /** The floor: a 40 by 40 plane laid flat at the origin. */
  function SetupFloor(): (m: Mesh)
    ensures m.node == Floor && m.rotation == LieFlat
    ensures m.geometry == PlaneGeometry(40.0, 40.0) && m.position == Origin
  {
    Mesh(Floor, PlaneGeometry(40.0, 40.0), StandardMaterial(0x555555, 0.9, 0.0, None, false), Origin, LieFlat)
  }

  /** The pedestal: a 4 by 0.8 by 8 box standing on the floor at x = -6. */
  function SetupPedestal(): (m: Mesh)
    ensures m.node == Pedestal && m.geometry.BoxGeometry?
    ensures Bottom(m) == SetupFloor().position.y
    ensures Top(m) == PedestalHeight
  {
    Mesh(Pedestal, BoxGeometry(Vec3(4.0, PedestalHeight, 8.0)),
         StandardMaterial(0x222222, 0.4, 0.6, None, false),
         Vec3(-6.0, PedestalHeight / 2.0, 0.0), Unrotated)
  }

  /** The curtain mesh: a box that covers the pedestal's footprint and floats
      0.2 above its top; its material carries the curtain texture as map. */
  function SetupCurtainMesh(): (m: Mesh)
    ensures m.node == Curtain && m.geometry == BoxGeometry(CurtainSize)
    ensures m.material.colorMap == Some(CurtainTexture)
    ensures Bottom(m) == Top(SetupPedestal()) + 0.2
    ensures CoversFootprint(m, SetupPedestal())
    ensures m.position == Vec3(-6.0, 3.0, 0.0)
  {
    Mesh(Curtain, BoxGeometry(CurtainSize),
         StandardMaterial(0xffffff, 0.8, 0.0, Some(CurtainTexture), true),
         Vec3(-6.0, CurtainY, 0.0), Unrotated)
  }

  /** The ground body: an immovable plane with the floor's placement. */
  function SetupGroundBody(): (b: Body)
    ensures b.id == GroundBody && b.mass == 0.0 && b.shape == PlaneShape
    ensures b.position == SetupFloor().position && b.rotation == SetupFloor().rotation
  {
    Body(GroundBody, 0.0, PlaneShape, Origin, LieFlat)
  }

  /** The curtain body: an immovable box that mirrors the curtain mesh. */
  function SetupCurtainBody(): (b: Body)
    ensures b.id == CurtainBody && b.mass == 0.0
    ensures MirrorsBox(SetupCurtainMesh(), b)
    ensures b.shape == BoxShape(Half(CurtainSize))
  {
    Body(CurtainBody, 0.0, BoxShape(Half(CurtainSize)), Vec3(-6.0, CurtainY, 0.0), Unrotated)
  }
}
