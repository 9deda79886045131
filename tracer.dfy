/**
  `trace(ray, step)` of RayTracer.cpp (lines 56-183): the recursive colour evaluator.

  `TraceF` is its specification as a value: the colour a ray yields, the object list after the
  colour writes the evaluation makes, and the deepest step it reached. `RayTracer.Trace` is the
  step-by-step procedure, proved to produce that colour and that object list.
 */
module Tracer {
  import opened Vectors
  import opened Patterns
  import opened Scene

  const MAX_STEPS: int := 5
  /** The colour of a ray that hits nothing. */
  const BACKGROUND := Zero
  const LIGHT_POS := Vec3(0.0, 25.0, -135.0)
  const PI: real := 3.14159265

  function Max(a: int, b: int): int {
    if a < b then b else a
  }

  // ---------------------------------------------------------------------------
  // Colour overrides before shading (lines 67-133)
  // ---------------------------------------------------------------------------

  /** The spherical texture coordinates (s, t) of lines 125-127 for a hit point on `shape`. */
  function TexCoords(env: Env, shape: Shape, hit: Vec3): (real, real) {
    var n := env.normal(shape, hit);
    (env.atan2(n.x, n.z) / (2.0 * PI) + 0.5, n.y * 0.5 + 0.5)
  }

  predicate InUnit(v: real) {
    0.0 <= v <= 1.0
  }

  /** The hit object carries a sphere texture and both of its coordinates at `hit` lie in [0, 1]. */
  predicate TextureApplies(env: Env, obj: SceneObject, hit: Vec3) {
    var (s, t) := TexCoords(env, obj.shape, hit);
    obj.material.sphereTex && InUnit(s) && InUnit(t)
  }

  /** The noise sample that drives the hue ramp on object 1 (line 85). */
  function NoiseAt(env: Env, hit: Vec3): real {
    env.noise(hit.x * 10.0, hit.y * 10.0)
  }

  /**
    The colour writes of lines 67-133 for a hit on object `i`: only object `i` may change;
    its colour becomes the texture colour when the texture applies, and otherwise the
    checkerboard colour for object 0, the hue-ramp colour for object 1, and stays as it was
    for any other object.
   */
  function PatternColors(env: Env, objs: seq<SceneObject>, i: int, hit: Vec3): (r: seq<SceneObject>)
    requires 0 <= i < |objs|
    ensures SameButColor(objs, r)
    ensures forall j :: 0 <= j < |objs| && j != i ==> r[j] == objs[j]
    ensures r[i].color ==
      if TextureApplies(env, objs[i], hit) then
        var (s, t) := TexCoords(env, objs[i].shape, hit);
        env.texColor(t, s)
      else if i == 0 then CheckerColor(hit.x, hit.z)
      else if i == 1 then ProceduralColor(NoiseAt(env, hit))
      else objs[i].color
  {
    var o0 := if i == 0 then WithColor(objs, 0, CheckerColor(hit.x, hit.z)) else objs;
    var o1 := if i == 1 then WithColor(o0, 1, ProceduralColor(NoiseAt(env, hit))) else o0;
    var (s, t) := TexCoords(env, o1[i].shape, hit);
    if o1[i].material.sphereTex && InUnit(s) && InUnit(t) then WithColor(o1, i, env.texColor(t, s))
    else o1
  }

  // ---------------------------------------------------------------------------
  // Local shading and the shadow ray (lines 135-145)
  // ---------------------------------------------------------------------------

  /** The shadow ray from `hit` toward the light (lines 137-139). */
  function ShadowHit(env: Env, objs: seq<SceneObject>, hit: Vec3): RayHit {
    env.closestPt(objs, hit, Sub(LIGHT_POS, hit))
  }

  /**
    The test of line 142: the shadow ray meets an object nearer than the light, and that
    object is not the one that was hit.
   */
  predicate Shadowed(env: Env, objs: seq<SceneObject>, i: int, hit: Vec3) {
    var sh := ShadowHit(env, objs, hit);
    sh.index > -1 && sh.dist < env.length(Sub(LIGHT_POS, hit)) && sh.index != i
  }

  /** The attenuation of line 143-144: 0.5 behind a transparent or refractive occluder, else 0.1. */
  function ShadowFactor(occluder: SceneObject): (f: real)
    ensures f == 0.5 || f == 0.1
    ensures f == 0.5 <==> occluder.material.transparent || occluder.material.refractive
  {
    if occluder.material.transparent || occluder.material.refractive then 0.5 else 0.1
  }

  /**
    The local colour of lines 135-145: the lit colour, or, in shadow, the attenuated stored
    colour of the hit object. The occluder is read only once the shadow ray is known to have
    hit something.
   */
  function LocalColor(env: Env, objs: seq<SceneObject>, i: int, dir: Vec3, hit: Vec3): (c: Vec3)
    requires ValidEnv(env) && 0 <= i < |objs|
    ensures !Shadowed(env, objs, i, hit) ==> c == env.lighting(objs[i], LIGHT_POS, Neg(dir), hit)
    ensures Shadowed(env, objs, i, hit) ==>
      c == Scale(0.5, objs[i].color) || c == Scale(0.1, objs[i].color)
  {
    var lit := env.lighting(objs[i], LIGHT_POS, Neg(dir), hit);
    var sh := ShadowHit(env, objs, hit);
    if Shadowed(env, objs, i, hit) then Scale(ShadowFactor(objs[sh.index]), objs[i].color)
    else lit
  }

  // ---------------------------------------------------------------------------
  // The recursive evaluation (lines 56-183)
  // ---------------------------------------------------------------------------

  /**
    The outcome of tracing one ray: its colour, the object list after the colour writes made
    along the way, and the deepest `step` at which `trace` was entered.
   */
  datatype Traced = Traced(color: Vec3, objects: seq<SceneObject>, deepest: int)

  /** `color + rho * child.color`, continuing from the objects the child left behind. */
  function Accumulate(acc: Traced, rho: real, child: Traced): Traced {
    Traced(Add(acc.color, Scale(rho, child.color)), child.objects, Max(acc.deepest, child.deepest))
  }

  /**
    The exit ray of lines 150-156: refract into the object, find where the inner ray meets the
    scene, and refract out again with the reversed normal and the reciprocal index. The inner
    hit point is used whether or not the inner ray hit anything, as at line 154.
   */
  function ExitRay(env: Env, objs: seq<SceneObject>, obj: SceneObject, dir: Vec3, hit: Vec3): (Vec3, Vec3)
    requires obj.material.refrIndex != 0.0
  {
    var eta := obj.material.refrIndex;
    var refrVec := env.refract(dir, env.normal(obj.shape, hit), eta);
    var exit := env.closestPt(objs, hit, refrVec).hit;
    (exit, env.refract(refrVec, Neg(env.normal(obj.shape, exit)), 1.0 / eta))
  }

  /** The hit object's refractive index is usable as a divisor whenever refraction is on. */
  predicate IndexUsable(obj: SceneObject) {
    obj.material.refractive ==> obj.material.refrIndex != 0.0
  }

  /**
    `trace(ray, step)` for the ray from `origin` along `dir`. Every recursive call is made at
    `step + 1` and only while `step < MAX_STEPS`, so the evaluation terminates and never enters
    a step beyond MAX_STEPS (or beyond `step` itself when that is larger); the evaluation only
    ever changes colours.
   */
  function TraceF(env: Env, objs: seq<SceneObject>, origin: Vec3, dir: Vec3, step: int): (r: Traced)
    requires ValidEnv(env) && RefractionIndicesNonZero(objs)
    ensures SameButColor(objs, r.objects)
    ensures step <= r.deepest <= Max(step, MAX_STEPS)
    decreases MAX_STEPS - step, 1
  {
    var h := env.closestPt(objs, origin, dir);
    if h.index == -1 then Traced(BACKGROUND, objs, step)
    else
      var i := h.index;
      var objs1 := PatternColors(env, objs, i, h.hit);
      SameButColorKeepsIndices(objs, objs1);
      var obj := objs1[i];
      var acc0 := Traced(LocalColor(env, objs1, i, dir, h.hit), objs1, step);
      var acc1 := Refraction(env, acc0, obj, dir, h.hit, step);
      var acc2 := Reflection(env, acc1, obj, dir, h.hit, step);
      var acc3 := Transparency(env, acc2, obj, dir, h.hit, step);
      SameButColorTrans(objs, acc1.objects, acc2.objects);
      SameButColorTrans(objs, acc2.objects, acc3.objects);
      acc3
  }

  /** Lines 147-159: the refracted contribution, when the object is refractive and depth remains. */
  function Refraction(env: Env, acc: Traced, obj: SceneObject, dir: Vec3, hit: Vec3, step: int): (r: Traced)
    requires ValidEnv(env) && RefractionIndicesNonZero(acc.objects) && IndexUsable(obj)
    ensures SameButColor(acc.objects, r.objects) && RefractionIndicesNonZero(r.objects)
    ensures acc.deepest <= r.deepest <= Max(acc.deepest, MAX_STEPS)
    decreases MAX_STEPS - step, 0
  {
    if obj.material.refractive && step < MAX_STEPS then
      var (exit, exitVec) := ExitRay(env, acc.objects, obj, dir, hit);
      var child := TraceF(env, acc.objects, exit, exitVec, step + 1);
      SameButColorKeepsIndices(acc.objects, child.objects);
      Accumulate(acc, obj.material.refrCoeff, child)
    else acc
  }

  /** Lines 162-169: the reflected contribution, when the object is reflective and depth remains. */
  function Reflection(env: Env, acc: Traced, obj: SceneObject, dir: Vec3, hit: Vec3, step: int): (r: Traced)
    requires ValidEnv(env) && RefractionIndicesNonZero(acc.objects)
    ensures SameButColor(acc.objects, r.objects) && RefractionIndicesNonZero(r.objects)
    ensures acc.deepest <= r.deepest <= Max(acc.deepest, MAX_STEPS)
    decreases MAX_STEPS - step, 0
  {
    if obj.material.reflective && step < MAX_STEPS then
      var reflectedDir := env.reflect(dir, env.normal(obj.shape, hit));
      var child := TraceF(env, acc.objects, hit, reflectedDir, step + 1);
      SameButColorKeepsIndices(acc.objects, child.objects);
      Accumulate(acc, obj.material.reflCoeff, child)
    else acc
  }

  /**
    Lines 171-176: the contribution seen straight through a transparent object, along the same
    direction from the hit point, when depth remains.
   */
  function Transparency(env: Env, acc: Traced, obj: SceneObject, dir: Vec3, hit: Vec3, step: int): (r: Traced)
    requires ValidEnv(env) && RefractionIndicesNonZero(acc.objects)
    ensures SameButColor(acc.objects, r.objects) && RefractionIndicesNonZero(r.objects)
    ensures acc.deepest <= r.deepest <= Max(acc.deepest, MAX_STEPS)
    decreases MAX_STEPS - step, 0
  {
    if obj.material.transparent && step < MAX_STEPS then
      var child := TraceF(env, acc.objects, hit, dir, step + 1);
      SameButColorKeepsIndices(acc.objects, child.objects);
      Accumulate(acc, obj.material.transCoeff, child)
    else acc
  }

  // ---------------------------------------------------------------------------
  // Properties of the evaluation
  // ---------------------------------------------------------------------------

  /** A ray that hits nothing yields the background colour and changes no object (lines 58, 63-64). */
  lemma TraceMiss(env: Env, objs: seq<SceneObject>, origin: Vec3, dir: Vec3, step: int)
    requires ValidEnv(env) && RefractionIndicesNonZero(objs)
    requires env.closestPt(objs, origin, dir).index == -1
    ensures TraceF(env, objs, origin, dir, step) == Traced(BACKGROUND, objs, step)
  {
  }

  /** Started at step 1, as for a primary ray (line 241), the evaluation never goes past MAX_STEPS. */
  lemma PrimaryRayDepth(env: Env, objs: seq<SceneObject>, origin: Vec3, dir: Vec3)
    requires ValidEnv(env) && RefractionIndicesNonZero(objs)
    ensures 1 <= TraceF(env, objs, origin, dir, 1).deepest <= MAX_STEPS
  {
  }

  /**
    A hit on an object that is neither refractive, reflective nor transparent, or any hit once
    `step` has reached MAX_STEPS, yields exactly the local colour of the painted object, and the
    only colour writes are the pattern writes for the hit object.
   */
  lemma TraceLocalOnly(env: Env, objs: seq<SceneObject>, origin: Vec3, dir: Vec3, step: int)
    requires ValidEnv(env) && RefractionIndicesNonZero(objs)
    requires var h := env.closestPt(objs, origin, dir);
      h.index != -1 &&
      var m := objs[h.index].material;
      (!m.refractive && !m.reflective && !m.transparent) || step >= MAX_STEPS
    ensures var h := env.closestPt(objs, origin, dir);
      var painted := PatternColors(env, objs, h.index, h.hit);
      TraceF(env, objs, origin, dir, step) ==
        Traced(LocalColor(env, painted, h.index, dir, h.hit), painted, step)
  {
    var h := env.closestPt(objs, origin, dir);
    var painted := PatternColors(env, objs, h.index, h.hit);
    assert painted[h.index].material == objs[h.index].material;
  }

  /**
    A hit on an object that is refractive, reflective and transparent, below MAX_STEPS, yields
    the local colour plus the three weighted child colours: the refracted ray leaving through
    the exit point, the mirrored ray, and the ray continuing along the same direction from the
    hit point, each traced at `step + 1` from the objects the previous one left behind.
   */
  lemma TraceAllThree(env: Env, objs: seq<SceneObject>, origin: Vec3, dir: Vec3, step: int)
    requires ValidEnv(env) && RefractionIndicesNonZero(objs)
    requires var h := env.closestPt(objs, origin, dir);
      h.index != -1 &&
      var m := objs[h.index].material;
      m.refractive && m.reflective && m.transparent && step < MAX_STEPS
    ensures var h := env.closestPt(objs, origin, dir);
      var i := h.index;
      var painted := PatternColors(env, objs, i, h.hit);
      var obj := painted[i];
      var m := obj.material;
      var (exit, exitVec) := ExitRay(env, painted, obj, dir, h.hit);
      var refracted := TraceF(env, painted, exit, exitVec, step + 1);
      var reflected := TraceF(env, refracted.objects, h.hit,
                              env.reflect(dir, env.normal(obj.shape, h.hit)), step + 1);
      var through := TraceF(env, reflected.objects, h.hit, dir, step + 1);
      var r := TraceF(env, objs, origin, dir, step);
      r.color == Add(Add(Add(LocalColor(env, painted, i, dir, h.hit),
                             Scale(m.refrCoeff, refracted.color)),
                         Scale(m.reflCoeff, reflected.color)),
                     Scale(m.transCoeff, through.color)) &&
      r.objects == through.objects
  {
    var h := env.closestPt(objs, origin, dir);
    var painted := PatternColors(env, objs, h.index, h.hit);
    assert painted[h.index].material == objs[h.index].material;
    SameButColorKeepsIndices(objs, painted);
  }

  /**
    Object `j` is one that no hit repaints: neither the floor (0) nor the hue object (1), and
    without a sphere texture.
   */
  predicate NeverPainted(objs: seq<SceneObject>, j: int) {
    1 < j < |objs| && !objs[j].material.sphereTex
  }

  /**
    Tracing a ray, however deep the recursion goes, leaves every object that no hit repaints
    exactly as it was: the colour writes reach only objects 0 and 1 and textured objects.
   */
  lemma {:induction false} TraceKeepsUnpainted(env: Env, objs: seq<SceneObject>, origin: Vec3, dir: Vec3,
                                               step: int, j: int)
    requires ValidEnv(env) && RefractionIndicesNonZero(objs) && NeverPainted(objs, j)
    ensures TraceF(env, objs, origin, dir, step).objects[j] == objs[j]
    decreases MAX_STEPS - step, 1
  {
    var h := env.closestPt(objs, origin, dir);
    if h.index != -1 {
      var i := h.index;
      var painted := PatternColors(env, objs, i, h.hit);
      SameButColorKeepsIndices(objs, painted);
      assert painted[j] == objs[j];
      var obj := painted[i];
      var acc0 := Traced(LocalColor(env, painted, i, dir, h.hit), painted, step);
      RefractionKeepsUnpainted(env, acc0, obj, dir, h.hit, step, j);
      var acc1 := Refraction(env, acc0, obj, dir, h.hit, step);
      ReflectionKeepsUnpainted(env, acc1, obj, dir, h.hit, step, j);
      var acc2 := Reflection(env, acc1, obj, dir, h.hit, step);
      TransparencyKeepsUnpainted(env, acc2, obj, dir, h.hit, step, j);
    }
  }

  lemma {:induction false} RefractionKeepsUnpainted(env: Env, acc: Traced, obj: SceneObject, dir: Vec3,
                                                    hit: Vec3, step: int, j: int)
    requires ValidEnv(env) && RefractionIndicesNonZero(acc.objects) && IndexUsable(obj)
    requires NeverPainted(acc.objects, j)
    ensures var r := Refraction(env, acc, obj, dir, hit, step);
      r.objects[j] == acc.objects[j] && NeverPainted(r.objects, j)
    decreases MAX_STEPS - step, 0
  {
    if obj.material.refractive && step < MAX_STEPS {
      var (exit, exitVec) := ExitRay(env, acc.objects, obj, dir, hit);
      TraceKeepsUnpainted(env, acc.objects, exit, exitVec, step + 1, j);
    }
  }

  lemma {:induction false} ReflectionKeepsUnpainted(env: Env, acc: Traced, obj: SceneObject, dir: Vec3,
                                                    hit: Vec3, step: int, j: int)
    requires ValidEnv(env) && RefractionIndicesNonZero(acc.objects) && NeverPainted(acc.objects, j)
    ensures var r := Reflection(env, acc, obj, dir, hit, step);
      r.objects[j] == acc.objects[j] && NeverPainted(r.objects, j)
    decreases MAX_STEPS - step, 0
  {
    if obj.material.reflective && step < MAX_STEPS {
      var reflectedDir := env.reflect(dir, env.normal(obj.shape, hit));
      TraceKeepsUnpainted(env, acc.objects, hit, reflectedDir, step + 1, j);
    }
  }

  lemma {:induction false} TransparencyKeepsUnpainted(env: Env, acc: Traced, obj: SceneObject, dir: Vec3,
                                                      hit: Vec3, step: int, j: int)
    requires ValidEnv(env) && RefractionIndicesNonZero(acc.objects) && NeverPainted(acc.objects, j)
    ensures var r := Transparency(env, acc, obj, dir, hit, step);
      r.objects[j] == acc.objects[j] && NeverPainted(r.objects, j)
    decreases MAX_STEPS - step, 0
  {
    if obj.material.transparent && step < MAX_STEPS {
      TraceKeepsUnpainted(env, acc.objects, hit, dir, step + 1, j);
    }
  }

  /**
    In shadow, the lit colour is discarded: the local colour is the stored colour of the hit
    object scaled by 0.5 behind a transparent or refractive occluder and by 0.1 behind any
    other, whatever the lighting model computes.
   */
  lemma ShadowReplacesLighting(env: Env, objs: seq<SceneObject>, i: int, dir: Vec3, hit: Vec3,
                               otherLighting: (SceneObject, Vec3, Vec3, Vec3) -> Vec3)
    requires ValidEnv(env) && 0 <= i < |objs| && Shadowed(env, objs, i, hit)
    ensures var occluder := objs[ShadowHit(env, objs, hit).index];
      var f := if occluder.material.transparent || occluder.material.refractive then 0.5 else 0.1;
      LocalColor(env, objs, i, dir, hit) == Scale(f, objs[i].color) &&
      LocalColor(env.(lighting := otherLighting), objs, i, dir, hit) == Scale(f, objs[i].color)
  {
    var env' := env.(lighting := otherLighting);
    assert ValidEnv(env') by {
      forall o, p, d ensures -1 <= env'.closestPt(o, p, d).index < |o| {
        assert env'.closestPt(o, p, d) == env.closestPt(o, p, d);
      }
    }
    assert Shadowed(env', objs, i, hit);
  }

  /**
    An object never shadows itself, and nothing further than the light casts a shadow: in those
    cases the local colour is the lit colour.
   */
  lemma NoShadowFromSelfOrBeyondLight(env: Env, objs: seq<SceneObject>, i: int, dir: Vec3, hit: Vec3)
    requires ValidEnv(env) && 0 <= i < |objs|
    requires var sh := ShadowHit(env, objs, hit);
      sh.index == i || sh.index == -1 || sh.dist >= env.length(Sub(LIGHT_POS, hit))
    ensures LocalColor(env, objs, i, dir, hit) == env.lighting(objs[i], LIGHT_POS, Neg(dir), hit)
  {
  }

  /**
    A hit on the floor (object 0) without an applicable texture paints it one of the two
    checkerboard colours, chosen by the hit point alone, and changes no other object.
   */
  lemma FloorPainted(env: Env, objs: seq<SceneObject>, hit: Vec3)
    requires |objs| > 0 && !TextureApplies(env, objs[0], hit)
    ensures var r := PatternColors(env, objs, 0, hit);
      (r[0].color == CHECKER_EVEN || r[0].color == CHECKER_ODD) &&
      r[0].color == CheckerColor(hit.x, hit.z) &&
      r[1..] == objs[1..]
  {
    var r := PatternColors(env, objs, 0, hit);
    assert forall j :: 0 <= j < |objs| - 1 ==> r[1..][j] == r[j + 1];
  }

  /**
    A hit on object 1 without an applicable texture paints it the hue-ramp colour of the noise
    at the hit point, every channel in [0, 0.6] when the noise is at most 1.
   */
  lemma HueObjectPainted(env: Env, objs: seq<SceneObject>, hit: Vec3)
    requires |objs| > 1 && !TextureApplies(env, objs[1], hit) && NoiseAt(env, hit) <= 1.0
    ensures var c := PatternColors(env, objs, 1, hit)[1].color;
      c == ProceduralColor(NoiseAt(env, hit)) &&
      0.0 <= c.x <= HUE_SCALE && 0.0 <= c.y <= HUE_SCALE && 0.0 <= c.z <= HUE_SCALE
  {
    ProceduralColorInRange(NoiseAt(env, hit));
  }

  /**
    The texture colour is written only when both texture coordinates lie in [0, 1]; for any
    object other than 0 and 1 the stored colour is otherwise left as it was.
   */
  lemma TextureOnlyInRange(env: Env, objs: seq<SceneObject>, i: int, hit: Vec3)
    requires 1 < i < |objs|
    ensures var (s, t) := TexCoords(env, objs[i].shape, hit);
      PatternColors(env, objs, i, hit) ==
        if objs[i].material.sphereTex && InUnit(s) && InUnit(t) then WithColor(objs, i, env.texColor(t, s))
        else objs
  {
  }

  /**
    The colour painted on objects 0 and 1, and any texture colour, depends on the hit point
    alone and not on the colour stored before: repeating the writes in any order of rays gives
    the same colour for the same hit.
   */
  lemma PaintIgnoresStoredColor(env: Env, a: seq<SceneObject>, b: seq<SceneObject>, i: int, hit: Vec3)
    requires SameButColor(a, b) && 0 <= i < |a|
    requires i == 0 || i == 1 || TextureApplies(env, a[i], hit)
    ensures PatternColors(env, a, i, hit)[i] == PatternColors(env, b, i, hit)[i]
  {
    assert a[i].shape == b[i].shape && a[i].material == b[i].material;
  }

  // ---------------------------------------------------------------------------
  // The procedure
  // ---------------------------------------------------------------------------

  /**
    A ray with the result state `closestPt` writes into it. Ray.h is not part of this model:
    the constructor starts with no hit (index -1), and the point and distance are unspecified
    until the search runs.
   */
  class Ray {
    var p0: Vec3
    var dir: Vec3
    var index: int
    var hit: Vec3
    var dist: real

    constructor (p0: Vec3, dir: Vec3)
      ensures this.p0 == p0 && this.dir == dir && index == -1
    {
      this.p0 := p0;
      this.dir := dir;
      index := -1;
      hit := Zero;
      dist := 0.0;
    }

    /** `Ray::closestPt(sceneObjects)`: stores what the closest-hit search reports for this ray. */
    method ClosestPt(search: (seq<SceneObject>, Vec3, Vec3) -> RayHit, objs: seq<SceneObject>)
      modifies this
      ensures p0 == old(p0) && dir == old(dir)
      ensures RayHit(index, hit, dist) == search(objs, old(p0), old(dir))
    {
      var r := search(objs, p0, dir);
      index := r.index;
      hit := r.hit;
      dist := r.dist;
    }
  }

  /** The renderer's global state that `trace` uses: the scene object list and the collaborators. */
  class RayTracer {
    var sceneObjects: seq<SceneObject>
    const env: Env

    ghost predicate Valid()
      reads this
    {
      ValidEnv(env) && RefractionIndicesNonZero(sceneObjects)
    }

    constructor (env: Env, objs: seq<SceneObject>)
      requires ValidEnv(env) && RefractionIndicesNonZero(objs)
      ensures Valid() && this.env == env && sceneObjects == objs
    {
      this.env := env;
      sceneObjects := objs;
    }

    /** `sceneObjects[i]->setColor(c)`. */
    method SetColor(i: int, c: Vec3)
      requires Valid() && 0 <= i < |sceneObjects|
      modifies this
      ensures Valid()
      ensures sceneObjects == WithColor(old(sceneObjects), i, c)
    {
      sceneObjects := WithColor(sceneObjects, i, c);
      SameButColorKeepsIndices(old(sceneObjects), sceneObjects);
    }

    /**
      `trace(ray, step)` for the ray from `origin` along `dir`: returns the colour `TraceF`
      gives and leaves the object list `TraceF` describes.
     */
    method Trace(origin: Vec3, dir: Vec3, step: int) returns (color: Vec3)
      requires Valid()
      modifies this
      ensures Valid()
      ensures color == TraceF(env, old(sceneObjects), origin, dir, step).color
      ensures sceneObjects == TraceF(env, old(sceneObjects), origin, dir, step).objects
      decreases MAX_STEPS - step, 1
    {
      var ray := new Ray(origin, dir);
      ray.ClosestPt(env.closestPt, sceneObjects);
      if ray.index == -1 {
        return BACKGROUND;
      }
      var i := ray.index;
      PaintPatterns(i, ray.hit);
      var obj := sceneObjects[i];
      color := Shade(i, ray.dir, ray.hit);
      color := RefractionStep(obj, ray.dir, ray.hit, step, color);
      color := ReflectionStep(obj, ray.dir, ray.hit, step, color);
      color := TransparencyStep(obj, ray.dir, ray.hit, step, color);
    }

    /** Lines 67-133: the checkerboard, hue-ramp and texture colour writes for a hit on object `i`. */
    method PaintPatterns(i: int, hit: Vec3)
      requires Valid() && 0 <= i < |sceneObjects|
      modifies this
      ensures Valid()
      ensures sceneObjects == PatternColors(env, old(sceneObjects), i, hit)
    {
      var color := Zero;
      if i == 0 {
        color := CheckerColor(hit.x, hit.z);
        SetColor(0, color);
      }
      if i == 1 {
        var value := NoiseAt(env, hit);
        color := ProceduralColor(value);
        SetColor(1, color);
      }
      if sceneObjects[i].material.sphereTex {
        var (s, t) := TexCoords(env, sceneObjects[i].shape, hit);
        if InUnit(s) && InUnit(t) {
          color := env.texColor(t, s);
          SetColor(i, color);
        }
      }
    }

    /** Lines 135-145: the lit colour of object `i` at `hit`, replaced by an attenuated one in shadow. */
    method Shade(i: int, dir: Vec3, hit: Vec3) returns (color: Vec3)
      requires Valid() && 0 <= i < |sceneObjects|
      ensures color == LocalColor(env, sceneObjects, i, dir, hit)
    {
      var obj := sceneObjects[i];
      color := env.lighting(obj, LIGHT_POS, Neg(dir), hit);
      var lightVec := Sub(LIGHT_POS, hit);
      var shadowRay := new Ray(hit, lightVec);
      shadowRay.ClosestPt(env.closestPt, sceneObjects);
      var lightDist := env.length(lightVec);
      if shadowRay.index > -1 && shadowRay.dist < lightDist && shadowRay.index != i {
        var shadowObject := sceneObjects[shadowRay.index];
        if shadowObject.material.transparent || shadowObject.material.refractive {
          color := Scale(0.5, obj.color);
        } else {
          color := Scale(0.1, obj.color);
        }
      }
    }

    /** Lines 147-159, adding the refracted colour to `color`. */
    method RefractionStep(obj: SceneObject, dir: Vec3, hit: Vec3, step: int, color: Vec3) returns (color': Vec3)
      requires Valid() && IndexUsable(obj)
      modifies this
      ensures Valid()
      ensures var r := Refraction(env, Traced(color, old(sceneObjects), step), obj, dir, hit, step);
        color' == r.color && sceneObjects == r.objects
      decreases MAX_STEPS - step, 0
    {
      color' := color;
      if obj.material.refractive && step < MAX_STEPS {
        var eta := obj.material.refrIndex;
        var rho := obj.material.refrCoeff;
        var normalVec := env.normal(obj.shape, hit);
        var refrVec := env.refract(dir, normalVec, eta);
        var refrRay := new Ray(hit, refrVec);
        refrRay.ClosestPt(env.closestPt, sceneObjects);
        var exitNormal := env.normal(obj.shape, refrRay.hit);
        var exitVec := env.refract(refrVec, Neg(exitNormal), 1.0 / eta);
        var refractedColor := Trace(refrRay.hit, exitVec, step + 1);
        color' := Add(color', Scale(rho, refractedColor));
      }
    }

    /** Lines 162-169, adding the reflected colour to `color`. */
    method ReflectionStep(obj: SceneObject, dir: Vec3, hit: Vec3, step: int, color: Vec3) returns (color': Vec3)
      requires Valid()
      modifies this
      ensures Valid()
      ensures var r := Reflection(env, Traced(color, old(sceneObjects), step), obj, dir, hit, step);
        color' == r.color && sceneObjects == r.objects
      decreases MAX_STEPS - step, 0
    {
      color' := color;
      if obj.material.reflective && step < MAX_STEPS {
        var rho := obj.material.reflCoeff;
        var normalVec := env.normal(obj.shape, hit);
        var reflectedDir := env.reflect(dir, normalVec);
        var reflectedColor := Trace(hit, reflectedDir, step + 1);
        color' := Add(color', Scale(rho, reflectedColor));
      }
    }

    /** Lines 171-176, adding the colour seen through a transparent object to `color`. */
    method TransparencyStep(obj: SceneObject, dir: Vec3, hit: Vec3, step: int, color: Vec3) returns (color': Vec3)
      requires Valid()
      modifies this
      ensures Valid()
      ensures var r := Transparency(env, Traced(color, old(sceneObjects), step), obj, dir, hit, step);
        color' == r.color && sceneObjects == r.objects
      decreases MAX_STEPS - step, 0
    {
      color' := color;
      if obj.material.transparent && step < MAX_STEPS {
        var rho := obj.material.transCoeff;
        var transparentColor := Trace(hit, dir, step + 1);
        color' := Add(color', Scale(rho, transparentColor));
      }
    }
  }
}
