/** The per-vertex attribute record of src/vertex.rs. */
module Vertices {
  import opened Linear
  import opened Colors

  datatype Vertex = Vertex(position: Vec3, normal: Vec3, texCoords: Vec2, color: Color)

  /** `Vertex::new`: the given attributes, coloured black. */
  function New(position: Vec3, normal: Vec3, texCoords: Vec2): (v: Vertex)
    ensures v.position == position && v.normal == normal && v.texCoords == texCoords
    ensures v.color == Black
  {
    Vertex(position, normal, texCoords, Black)
  }

  /** `Vertex::new_with_color`: zero normal and texture coordinates, the given colour. */
  function NewWithColor(position: Vec3, color: Color): (v: Vertex)
    ensures v.position == position && v.color == color
    ensures v.normal == Zero3 && v.texCoords == Zero2
  {
    Vertex(position, Zero3, Zero2, color)
  }

  /** `Default for Vertex`: at the origin, facing +y, black. */
  function Default(): (v: Vertex)
    ensures v.position == Zero3 && v.normal == UnitY && v.texCoords == Zero2 && v.color == Black
  {
    Vertex(Zero3, UnitY, Zero2, Black)
  }

  /** `set_transformed`: the record with position and normal replaced and nothing else changed. */
  function SetTransformed(v: Vertex, position: Vec3, normal: Vec3): (r: Vertex)
    ensures r.position == position && r.normal == normal
    ensures r.texCoords == v.texCoords && r.color == v.color
  {
    v.(position := position, normal := normal)
  }

  /** A second `set_transformed` overrides the first; with equal arguments it is idempotent. */
  lemma SetTransformedLastWins(v: Vertex, p1: Vec3, n1: Vec3, p2: Vec3, n2: Vec3)
    ensures SetTransformed(SetTransformed(v, p1, n1), p2, n2) == SetTransformed(v, p2, n2)
    ensures SetTransformed(SetTransformed(v, p2, n2), p2, n2) == SetTransformed(v, p2, n2)
  {
  }
}
