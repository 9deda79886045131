/**
  The scene as `trace` sees it: the list of scene objects with their colours and material
  flags, and the collaborators whose code lies outside this model (the closest-hit search of
  Ray, SceneObject lighting and normals, glm's reflect/refract/length, the noise generator,
  the texture lookup and atan2), each an arbitrary function passed in as a field of `Env`.
 */
module Scene {
  import opened Vectors
  import opened Cones

  /**
    The geometry of a scene object. Spheres and planes are told apart only by a tag: their
    classes (Sphere.h, Plane.h) are not part of this model.
   */
  datatype Shape = ConeShape(cone: Cone) | OtherShape(tag: nat)

  /** The material state a SceneObject carries next to its colour (flags and coefficients). */
  datatype Material = Material(
    reflective: bool, reflCoeff: real,
    refractive: bool, refrCoeff: real, refrIndex: real,
    transparent: bool, transCoeff: real,
    sphereTex: bool)

  datatype SceneObject = SceneObject(shape: Shape, color: Vec3, material: Material)

  /** What `Ray::closestPt` leaves in the ray: the object index (-1 for none), the point and its distance. */
  datatype RayHit = RayHit(index: int, hit: Vec3, dist: real)

  /** The collaborators of `trace`. */
  datatype Env = Env(
    closestPt: (seq<SceneObject>, Vec3, Vec3) -> RayHit,
    lighting: (SceneObject, Vec3, Vec3, Vec3) -> Vec3,
    normal: (Shape, Vec3) -> Vec3,
    reflect: (Vec3, Vec3) -> Vec3,
    refract: (Vec3, Vec3, real) -> Vec3,
    length: Vec3 -> real,
    atan2: (real, real) -> real,
    noise: (real, real) -> real,
    texColor: (real, real) -> Vec3)

  /** The closest-hit search reports -1 or the index of an object of the list it searched. */
  ghost predicate ValidEnv(env: Env) {
    forall objs, p, d :: -1 <= env.closestPt(objs, p, d).index < |objs|
  }

  /** Two object lists that differ at most in their colours. */
  predicate SameButColor(a: seq<SceneObject>, b: seq<SceneObject>) {
    |a| == |b| &&
    forall i :: 0 <= i < |a| ==> a[i].shape == b[i].shape && a[i].material == b[i].material
  }

  lemma SameButColorTrans(a: seq<SceneObject>, b: seq<SceneObject>, c: seq<SceneObject>)
    requires SameButColor(a, b) && SameButColor(b, c)
    ensures SameButColor(a, c)
  {
  }

  /**
    Every refractive object has a nonzero refractive index, so that `1/eta` at
    RayTracer.cpp:155 is defined.
   */
  predicate RefractionIndicesNonZero(objs: seq<SceneObject>) {
    forall i :: 0 <= i < |objs| && objs[i].material.refractive ==> objs[i].material.refrIndex != 0.0
  }

  /** Lists that differ only in colours agree on the refractive-index requirement. */
  lemma SameButColorKeepsIndices(a: seq<SceneObject>, b: seq<SceneObject>)
    requires SameButColor(a, b) && RefractionIndicesNonZero(a)
    ensures RefractionIndicesNonZero(b)
  {
    forall i | 0 <= i < |b| && b[i].material.refractive
      ensures b[i].material.refrIndex != 0.0
    {
      assert a[i].material == b[i].material;
    }
  }

  /**
    `sceneObjects[i]->setColor(c)`: object `i` takes colour `c`; every other object, and the
    shape and material of object `i`, stay as they were.
   */
  function WithColor(objs: seq<SceneObject>, i: int, c: Vec3): (r: seq<SceneObject>)
    requires 0 <= i < |objs|
    ensures SameButColor(objs, r)
    ensures r[i].color == c
    ensures forall j :: 0 <= j < |objs| && j != i ==> r[j] == objs[j]
  {
    objs[i := objs[i].(color := c)]
  }
}
