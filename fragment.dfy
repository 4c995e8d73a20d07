/**
 * Fragment assembly along triangle edges (src/fragment.rs). The edge walker
 * reads each vertex's screen position, which is the vertex's `position`
 * attribute after the vertex shader.
 */
module Fragments {
  import opened Linear
  import opened Colors
  import opened Vertices
  import opened Seqs

  datatype Fragment = Fragment(position: Vec3, color: Color)

  /** Every fragment is pink. */
  predicate AllPink(fs: seq<Fragment>) {
    forall i :: 0 <= i < |fs| ==> fs[i].color == Pink
  }

  lemma PinkAppend(a: seq<Fragment>, b: seq<Fragment>)
    requires AllPink(a) && AllPink(b)
    ensures AllPink(a + b)
  {
  }

  /** `Fragment::new`: stores position and colour unchanged. */
  function NewFragment(position: Vec3, color: Color): (f: Fragment)
    ensures f.position == position && f.color == color
  {
    Fragment(position, color)
  }

  /** The nominal parameter increment `1.0e-3` of `line`. */
  const StepSize: real := 0.001

  /** A bound on how far one `f32` addition of the step can stray from the exact sum. */
  const Rounding: real := 0.0001

  /**
   * `step` is the `f32` operation `accum += 1.0e-3` on parameters in [0, 1]:
   * it advances by the step size up to rounding. The exact rounding, and with
   * it the number of fragments per edge, is not modelled.
   */
  ghost predicate Advances(step: real -> real) {
    forall t: real :: 0.0 <= t <= 1.0 ==> t + (StepSize - Rounding) <= step(t) <= t + (StepSize + Rounding)
  }

  /** A bound on the number of steps left from parameter `t`. */
  ghost function StepsLeft(t: real): int {
    ((2.0 - t) / (StepSize - Rounding)).Floor
  }

  /** The values `accum` takes in `line`'s loop body, starting from `t`. */
  function LineParams(step: real -> real, t: real): (ps: seq<real>)
    requires Advances(step) && 0.0 <= t
    ensures forall i :: 0 <= i < |ps| ==> t <= ps[i] <= 1.0
    ensures |ps| > 0 <==> t <= 1.0
    decreases StepsLeft(t)
  {
    if t <= 1.0 then [t] + LineParams(step, step(t)) else []
  }

  /** Consecutive parameters are one `step` apart, strictly increasing, and the loop stops once the next exceeds 1. */
  lemma {:induction false} LineParamsChain(step: real -> real, t: real)
    requires Advances(step) && 0.0 <= t
    ensures var ps := LineParams(step, t);
      (|ps| > 0 ==> ps[0] == t && step(ps[|ps| - 1]) > 1.0) &&
      (forall i :: 0 <= i < |ps| - 1 ==> ps[i + 1] == step(ps[i]) && ps[i] < ps[i + 1])
    decreases StepsLeft(t)
  {
    if t <= 1.0 {
      LineParamsChain(step, step(t));
      var ps := LineParams(step, t);
      assert ps[1..] == LineParams(step, step(t));
    }
  }

  /** The point `a + t * (b - a)` of the edge from `a` to `b`. */
  function EdgePoint(a: Vec3, b: Vec3, t: real): (p: Vec3)
    ensures t == 0.0 ==> p == a
    ensures t == 1.0 ==> p == b
  {
    Add(a, Scale(t, Sub(b, a)))
  }

  /** One pink fragment per parameter, at the matching edge point, in order. */
  function FragmentsAlong(a: Vec3, b: Vec3, ps: seq<real>): (fs: seq<Fragment>)
    ensures |fs| == |ps|
    ensures forall i :: 0 <= i < |fs| ==> fs[i] == Fragment(EdgePoint(a, b, ps[i]), Pink)
  {
    if ps == [] then [] else [NewFragment(EdgePoint(a, b, ps[0]), Pink)] + FragmentsAlong(a, b, ps[1..])
  }

  /**
   * What `line(a, b)` returns: never empty, starting at `a`'s position, every
   * fragment pink and on the segment from `a` to `b`.
   */
  function LineFragments(a: Vertex, b: Vertex, step: real -> real): (fs: seq<Fragment>)
    requires Advances(step)
    ensures |fs| > 0 && fs[0].position == a.position
    ensures AllPink(fs)
    ensures forall i :: 0 <= i < |fs| ==>
      exists t :: 0.0 <= t <= 1.0 && fs[i].position == EdgePoint(a.position, b.position, t)
  {
    var ps := LineParams(step, 0.0);
    LineParamsChain(step, 0.0);
    var fs := FragmentsAlong(a.position, b.position, ps);
    assert forall i :: 0 <= i < |fs| ==> fs[i].position == EdgePoint(a.position, b.position, ps[i]);
    fs
  }

  /** One pass of `line`'s loop: the fragment at `t`, then those of the parameters after it. */
  lemma LineStep(a: Vec3, b: Vec3, step: real -> real, t: real)
    requires Advances(step) && 0.0 <= t <= 1.0
    ensures 0.0 <= step(t) && StepsLeft(step(t)) < StepsLeft(t)
    ensures FragmentsAlong(a, b, LineParams(step, t)) ==
      [Fragment(EdgePoint(a, b, t), Pink)] + FragmentsAlong(a, b, LineParams(step, step(t)))
  {
    assert LineParams(step, t)[1..] == LineParams(step, step(t));
  }

  /** `line`: walks the edge from `a` to `b`, emitting a pink fragment per parameter value. */
  method Line(a: Vertex, b: Vertex, step: real -> real) returns (fragments: seq<Fragment>)
    requires Advances(step)
    ensures fragments == LineFragments(a, b, step)
  {
    fragments := [];
    var direction := Sub(b.position, a.position);
    var accum := 0.0;
    while accum <= 1.0
      invariant 0.0 <= accum
      invariant fragments + FragmentsAlong(a.position, b.position, LineParams(step, accum)) == LineFragments(a, b, step)
      decreases StepsLeft(accum)
    {
      var newPosition := Add(a.position, Scale(accum, direction));
      LineStep(a.position, b.position, step, accum);
      AppendAssoc(fragments, [NewFragment(newPosition, Pink)], FragmentsAlong(a.position, b.position, LineParams(step, step(accum))));
      fragments := fragments + [NewFragment(newPosition, Pink)];
      accum := step(accum);
    }
  }

  /**
   * `triangle`: the edges v1-v2, v2-v3 and v3-v1, in that order. Every
   * fragment is pink whatever the vertex colours, there are at least three,
   * and the three edges start at v1, v2 and v3 in turn.
   */
  function TriangleFragments(v1: Vertex, v2: Vertex, v3: Vertex, step: real -> real): (fs: seq<Fragment>)
    requires Advances(step)
    ensures |fs| >= 3
    ensures AllPink(fs)
    ensures var n12, n23 := |LineFragments(v1, v2, step)|, |LineFragments(v2, v3, step)|;
      n12 + n23 < |fs| &&
      fs[0].position == v1.position &&
      fs[n12].position == v2.position &&
      fs[n12 + n23].position == v3.position
  {
    LineFragments(v1, v2, step) + LineFragments(v2, v3, step) + LineFragments(v3, v1, step)
  }

  /** `triangle` as the source computes it: three calls to `line`, concatenated. */
  method Triangle(v1: Vertex, v2: Vertex, v3: Vertex, step: real -> real) returns (fragments: seq<Fragment>)
    requires Advances(step)
    ensures fragments == TriangleFragments(v1, v2, v3, step)
  {
    var e12 := Line(v1, v2, step);
    var e23 := Line(v2, v3, step);
    var e31 := Line(v3, v1, step);
    fragments := e12 + e23 + e31;
  }
}
