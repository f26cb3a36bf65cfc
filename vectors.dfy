/** Small vector values standing in for Qt's QVector2D/QVector3D and glm::vec3.
    Components are reals: single-precision rounding is not modelled. */
module Vectors {

  datatype Vec2 = Vec2(x: real, y: real)

  datatype Vec3 = Vec3(x: real, y: real, z: real)

  const Zero3: Vec3 := Vec3(0.0, 0.0, 0.0)

  function Add(a: Vec3, b: Vec3): Vec3 {
    Vec3(a.x + b.x, a.y + b.y, a.z + b.z)
  }

  function Sub(a: Vec3, b: Vec3): Vec3 {
    Vec3(a.x - b.x, a.y - b.y, a.z - b.z)
  }

  function Scale(k: real, v: Vec3): Vec3 {
    Vec3(k * v.x, k * v.y, k * v.z)
  }

  function Dot(a: Vec3, b: Vec3): real {
    a.x * b.x + a.y * b.y + a.z * b.z
  }

  function Cross(a: Vec3, b: Vec3): Vec3 {
    Vec3(a.y * b.z - a.z * b.y, a.z * b.x - a.x * b.z, a.x * b.y - a.y * b.x)
  }
}
