/**
 * Vectors and matrices. Components are exact reals standing in for `f32`;
 * no property of the model depends on their values. A 4x4 matrix is denoted
 * by the builder call that produced it, since the builders are float numerics.
 */
module Linear {

  datatype Vec2 = Vec2(x: real, y: real)

  datatype Vec3 = Vec3(x: real, y: real, z: real)

  const Zero2: Vec2 := Vec2(0.0, 0.0)
  const Zero3: Vec3 := Vec3(0.0, 0.0, 0.0)
  const UnitY: Vec3 := Vec3(0.0, 1.0, 0.0)

  function Add(a: Vec3, b: Vec3): Vec3 {
    Vec3(a.x + b.x, a.y + b.y, a.z + b.z)
  }

  function Sub(a: Vec3, b: Vec3): Vec3 {
    Vec3(a.x - b.x, a.y - b.y, a.z - b.z)
  }

  function Scale(t: real, v: Vec3): Vec3 {
    Vec3(t * v.x, t * v.y, t * v.z)
  }

  /** A matrix, named by the builder that made it. */
  datatype Mat4 =
    | LookAt(eye: Vec3, center: Vec3, up: Vec3)
    | Perspective(windowWidth: real, windowHeight: real)
    | ViewportMap(framebufferWidth: real, framebufferHeight: real)
    | ModelTransform(translation: Vec3, scale: real, rotation: Vec3)
}
