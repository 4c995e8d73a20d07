/**
 * The render driver of src/render.rs: for each object, flatten its mesh,
 * run the vertex shader over every vertex, group the result into triangles,
 * collect the triangles' edge fragments and paint them in order. The vertex
 * shader is a parameter: its matrix numerics are not part of this model.
 */
module Render {
  import opened Linear
  import opened Colors
  import opened Seqs
  import opened Outcomes
  import opened Vertices
  import opened Fragments
  import opened Objs
  import opened Framebuffers

  datatype Uniforms = Uniforms(modelMatrix: Mat4, viewMatrix: Mat4, projectionMatrix: Mat4, viewportMatrix: Mat4)

  /** The part of the application state `render` reads. */
  datatype Model = Model(objs: seq<Obj>, uniforms: Uniforms)

  /** The vertex stage: the shader applied to every vertex, same length, same order. */
  function ShadeVertices(vs: seq<Vertex>, uniforms: Uniforms, shader: (Vertex, Uniforms) -> Vertex): (r: seq<Vertex>)
    ensures |r| == |vs|
    ensures forall i :: 0 <= i < |r| ==> r[i] == shader(vs[i], uniforms)
  {
    if vs == [] then [] else [shader(vs[0], uniforms)] + ShadeVertices(vs[1..], uniforms, shader)
  }

  /**
   * `get_vertex_array` followed by the vertex shader: panics on an index past
   * the vertex list, and otherwise yields one shaded vertex per index, in
   * index order.
   */
  function VertexStage(obj: Obj, uniforms: Uniforms, shader: (Vertex, Uniforms) -> Vertex): (r: Outcome<seq<Vertex>>)
    ensures r.Ok? <==> IndicesInRange(obj)
    ensures r.Panic? ==> r.reason == UnwrapOnNone
    ensures r.Ok? ==> |r.value| == |obj.indices|
    ensures r.Ok? ==> forall i :: 0 <= i < |r.value| ==>
      r.value[i] == shader(New(obj.vertices[obj.indices[i]], UnitY, Zero2), uniforms)
  {
    match GetVertexArray(obj)
    case Panic(e) => Panic(e)
    case Ok(vertexArray) => Ok(ShadeVertices(vertexArray, uniforms, shader))
  }

  /** Every triangle has three vertices. */
  predicate AllTriangles(tris: seq<seq<Vertex>>) {
    forall k :: 0 <= k < |tris| ==> |tris[k]| == 3
  }

  /** The fragments of the assembled triangles, triangle after triangle. */
  function AssembleFragments(tris: seq<seq<Vertex>>, step: real -> real): (fs: seq<Fragment>)
    requires AllTriangles(tris) && Advances(step)
    ensures |fs| >= 3 * |tris|
    ensures AllPink(fs)
  {
    if tris == [] then []
    else
      var last := tris[|tris| - 1];
      AssembleFragments(tris[..|tris| - 1], step) + TriangleFragments(last[0], last[1], last[2], step)
  }

  lemma AssembleFragmentsSnoc(tris: seq<seq<Vertex>>, k: nat, step: real -> real)
    requires Advances(step) && k < |tris| && AllTriangles(tris[..k]) && |tris[k]| == 3
    ensures AllTriangles(tris[..k + 1])
    ensures AssembleFragments(tris[..k + 1], step) ==
      AssembleFragments(tris[..k], step) + TriangleFragments(tris[k][0], tris[k][1], tris[k][2], step)
  {
    assert tris[..k + 1][..k] == tris[..k];
  }

  /**
   * Primitive assembly and rasterization of the shaded vertices: `chunks(3)`,
   * then `triangle` per chunk. A vertex count that is not a multiple of 3
   * leaves a short last chunk, and `tri[1]`/`tri[2]` on it panics.
   */
  function AssembleObj(newVertices: seq<Vertex>, step: real -> real): (r: Outcome<seq<Fragment>>)
    requires Advances(step)
    ensures r.Ok? <==> |newVertices| % 3 == 0
    ensures r.Panic? ==> r.reason == IndexOutOfBounds
    ensures r.Ok? ==> |r.value| >= |newVertices| && AllPink(r.value)
  {
    ChunkCount(newVertices, 3);
    if |newVertices| % 3 != 0 then Panic(IndexOutOfBounds)
    else Ok(AssembleFragments(Chunks(newVertices, 3), step))
  }

  /**
   * The fragments one object contributes: it fails when an index is out of
   * range (`get_vertex_array`) or when its vertex count is not a multiple of
   * 3; otherwise every fragment is pink and there are at least as many as
   * vertices.
   */
  function ObjFragments(obj: Obj, uniforms: Uniforms, shader: (Vertex, Uniforms) -> Vertex, step: real -> real): (r: Outcome<seq<Fragment>>)
    requires Advances(step)
    ensures r.Ok? <==> IndicesInRange(obj) && |obj.indices| % 3 == 0
    ensures r.Ok? ==> |r.value| >= |obj.indices| && AllPink(r.value)
  {
    match VertexStage(obj, uniforms, shader)
    case Panic(e) => Panic(e)
    case Ok(newVertices) => AssembleObj(newVertices, step)
  }

  /** What rendering a list of objects paints, and whether it stopped on a panic. */
  datatype Trace = Trace(painted: seq<Fragment>, panic: Option<PanicReason>)

  /** Per-object results folded in order: painting stops at the first panic. */
  function TraceOf(results: seq<Outcome<seq<Fragment>>>): (t: Trace)
    ensures t.panic.Some? ==> exists k :: 0 <= k < |results| && results[k] == Panic(t.panic.value)
  {
    if results == [] then Trace([], None)
    else
      var prev := TraceOf(results[..|results| - 1]);
      assert forall k :: 0 <= k < |results| - 1 ==> results[..|results| - 1][k] == results[k];
      if prev.panic.Some? then prev
      else
        match results[|results| - 1]
        case Panic(e) => Trace(prev.painted, Some(e))
        case Ok(fs) => Trace(prev.painted + fs, None)
  }

  /** Each object's fragments, object by object. */
  function ObjResults(objs: seq<Obj>, uniforms: Uniforms, shader: (Vertex, Uniforms) -> Vertex, step: real -> real): (rs: seq<Outcome<seq<Fragment>>>)
    requires Advances(step)
    ensures |rs| == |objs|
  {
    if objs == [] then []
    else ObjResults(objs[..|objs| - 1], uniforms, shader, step) + [ObjFragments(objs[|objs| - 1], uniforms, shader, step)]
  }

  lemma {:induction false} ObjResultsAt(objs: seq<Obj>, k: nat, uniforms: Uniforms, shader: (Vertex, Uniforms) -> Vertex, step: real -> real)
    requires Advances(step) && k < |objs|
    ensures ObjResults(objs, uniforms, shader, step)[k] == ObjFragments(objs[k], uniforms, shader, step)
  {
    if k < |objs| - 1 {
      ObjResultsAt(objs[..|objs| - 1], k, uniforms, shader, step);
    }
  }

  lemma {:induction false} ObjResultsSplit(a: seq<Obj>, b: seq<Obj>, uniforms: Uniforms, shader: (Vertex, Uniforms) -> Vertex, step: real -> real)
    requires Advances(step)
    ensures ObjResults(a + b, uniforms, shader, step) == ObjResults(a, uniforms, shader, step) + ObjResults(b, uniforms, shader, step)
    decreases |b|
  {
    if b == [] {
      assert a + b == a;
    } else {
      var init, last := b[..|b| - 1], b[|b| - 1];
      assert a + b == (a + init) + [last];
      ObjResultsAppendOne(a + init, last, uniforms, shader, step);
      ObjResultsSplit(a, init, uniforms, shader, step);
      ObjResultsAppendOne(init, last, uniforms, shader, step);
      AppendAssoc(ObjResults(a, uniforms, shader, step), ObjResults(init, uniforms, shader, step),
        [ObjFragments(last, uniforms, shader, step)]);
    }
  }

  lemma ObjResultsAppendOne(objs: seq<Obj>, obj: Obj, uniforms: Uniforms, shader: (Vertex, Uniforms) -> Vertex, step: real -> real)
    requires Advances(step)
    ensures ObjResults(objs + [obj], uniforms, shader, step) ==
      ObjResults(objs, uniforms, shader, step) + [ObjFragments(obj, uniforms, shader, step)]
  {
    assert (objs + [obj])[..|objs|] == objs;
  }

  /** What `render` paints for a list of objects, and whether it panics. */
  function RenderTrace(objs: seq<Obj>, uniforms: Uniforms, shader: (Vertex, Uniforms) -> Vertex, step: real -> real): (t: Trace)
    requires Advances(step)
    ensures t.panic.Some? ==>
      exists k :: 0 <= k < |objs| && ObjResults(objs, uniforms, shader, step)[k] == Panic(t.panic.value)
  {
    TraceOf(ObjResults(objs, uniforms, shader, step))
  }

  /** The paint calls for a list of fragments: one per fragment, in order, each with the fragment's colour. */
  function PaintCalls(fs: seq<Fragment>): (r: seq<PaintCall>)
    ensures |r| == |fs|
    ensures forall i :: 0 <= i < |r| ==> r[i] == PaintCall(fs[i].position, fs[i].color)
  {
    seq(|fs|, i requires 0 <= i < |fs| => PaintCall(fs[i].position, fs[i].color))
  }

  lemma PaintCallsAppend(a: seq<Fragment>, b: seq<Fragment>)
    ensures PaintCalls(a + b) == PaintCalls(a) + PaintCalls(b)
  {
  }

  lemma {:induction false} TraceOfSplit(a: seq<Outcome<seq<Fragment>>>, b: seq<Outcome<seq<Fragment>>>)
    ensures TraceOf(a + b) ==
      if TraceOf(a).panic.Some? then TraceOf(a) else Trace(TraceOf(a).painted + TraceOf(b).painted, TraceOf(b).panic)
    decreases |b|
  {
    var ta := TraceOf(a);
    if b == [] {
      assert a + b == a;
      assert ta.painted + [] == ta.painted;
    } else {
      var init, last := b[..|b| - 1], b[|b| - 1];
      assert (a + b)[..|a + b| - 1] == a + init;
      assert (a + b)[|a + b| - 1] == last;
      TraceOfSplit(a, init);
      var ti := TraceOf(init);
      if ta.panic.None? && ti.panic.None? && last.Ok? {
        assert ta.painted + ti.painted + last.value == ta.painted + (ti.painted + last.value);
      }
    }
  }

  /**
   * All of one object's fragments are painted before any of the next
   * object's: rendering `a + b` paints what rendering `a` paints, then, unless
   * `a` panicked, what rendering `b` paints.
   */
  lemma RenderTraceSplit(a: seq<Obj>, b: seq<Obj>, uniforms: Uniforms, shader: (Vertex, Uniforms) -> Vertex, step: real -> real)
    requires Advances(step)
    ensures RenderTrace(a + b, uniforms, shader, step) ==
      if RenderTrace(a, uniforms, shader, step).panic.Some? then RenderTrace(a, uniforms, shader, step)
      else Trace(RenderTrace(a, uniforms, shader, step).painted + RenderTrace(b, uniforms, shader, step).painted,
                 RenderTrace(b, uniforms, shader, step).panic)
  {
    ObjResultsSplit(a, b, uniforms, shader, step);
    TraceOfSplit(ObjResults(a, uniforms, shader, step), ObjResults(b, uniforms, shader, step));
  }

  lemma {:induction false} TraceOfPink(results: seq<Outcome<seq<Fragment>>>)
    requires forall k :: 0 <= k < |results| && results[k].Ok? ==> AllPink(results[k].value)
    ensures AllPink(TraceOf(results).painted)
  {
    if results != [] {
      var init := results[..|results| - 1];
      TraceOfPink(init);
      var prev := TraceOf(init);
      if prev.panic.None? && results[|results| - 1].Ok? {
        PinkAppend(prev.painted, results[|results| - 1].value);
      }
    }
  }

  /** Every point the render paints is pink, whatever the vertex colours. */
  lemma RenderPaintsPink(objs: seq<Obj>, uniforms: Uniforms, shader: (Vertex, Uniforms) -> Vertex, step: real -> real)
    requires Advances(step)
    ensures AllPink(RenderTrace(objs, uniforms, shader, step).painted)
  {
    var rs := ObjResults(objs, uniforms, shader, step);
    forall k | 0 <= k < |rs| && rs[k].Ok? ensures AllPink(rs[k].value) {
      ObjResultsAt(objs, k, uniforms, shader, step);
    }
    TraceOfPink(rs);
  }

  lemma {:induction false} TraceOfPanic(results: seq<Outcome<seq<Fragment>>>)
    ensures TraceOf(results).panic.None? <==> forall k :: 0 <= k < |results| ==> results[k].Ok?
  {
    if results != [] {
      TraceOfPanic(results[..|results| - 1]);
    }
  }

  /** A render panics exactly when some object has an out-of-range index or a vertex count not a multiple of 3. */
  lemma RenderPanicsIff(objs: seq<Obj>, uniforms: Uniforms, shader: (Vertex, Uniforms) -> Vertex, step: real -> real)
    requires Advances(step)
    ensures RenderTrace(objs, uniforms, shader, step).panic.None? <==>
      forall k :: 0 <= k < |objs| ==> IndicesInRange(objs[k]) && |objs[k].indices| % 3 == 0
  {
    var rs := ObjResults(objs, uniforms, shader, step);
    forall k | 0 <= k < |rs| ensures rs[k] == ObjFragments(objs[k], uniforms, shader, step) {
      ObjResultsAt(objs, k, uniforms, shader, step);
    }
    TraceOfPanic(rs);
  }

  lemma ObjResultsSnoc(objs: seq<Obj>, i: nat, uniforms: Uniforms, shader: (Vertex, Uniforms) -> Vertex, step: real -> real)
    requires Advances(step) && i < |objs|
    ensures ObjResults(objs[..i + 1], uniforms, shader, step) ==
      ObjResults(objs[..i], uniforms, shader, step) + [ObjFragments(objs[i], uniforms, shader, step)]
  {
    assert objs[..i + 1][..i] == objs[..i];
  }

  lemma TraceOfSnoc(results: seq<Outcome<seq<Fragment>>>, r: Outcome<seq<Fragment>>)
    requires TraceOf(results).panic.None?
    ensures TraceOf(results + [r]) ==
      match r
      case Panic(e) => Trace(TraceOf(results).painted, Some(e))
      case Ok(fs) => Trace(TraceOf(results).painted + fs, None)
  {
    assert (results + [r])[..|results|] == results;
  }

  /** Once an object panics, the objects after it change nothing. */
  lemma RenderStopsAt(objs: seq<Obj>, i: nat, uniforms: Uniforms, shader: (Vertex, Uniforms) -> Vertex, step: real -> real)
    requires Advances(step) && i < |objs|
    requires TraceOf(ObjResults(objs[..i + 1], uniforms, shader, step)).panic.Some?
    ensures RenderTrace(objs, uniforms, shader, step) == TraceOf(ObjResults(objs[..i + 1], uniforms, shader, step))
  {
    assert objs == objs[..i + 1] + objs[i + 1..];
    ObjResultsSplit(objs[..i + 1], objs[i + 1..], uniforms, shader, step);
    TraceOfSplit(ObjResults(objs[..i + 1], uniforms, shader, step), ObjResults(objs[i + 1..], uniforms, shader, step));
  }

  /**
   * The triangle loop of `render`: extend the fragment list with
   * `triangle(&tri[0], &tri[1], &tri[2])` for each chunk in order; a chunk
   * shorter than 3 panics.
   */
  method RasterizeTriangles(triangles: seq<seq<Vertex>>, step: real -> real) returns (r: Outcome<seq<Fragment>>)
    requires Advances(step)
    requires forall k :: 0 <= k < |triangles| ==> |triangles[k]| <= 3
    ensures r.Ok? <==> AllTriangles(triangles)
    ensures r.Panic? ==> r.reason == IndexOutOfBounds
    ensures r.Ok? ==> r.value == AssembleFragments(triangles, step)
  {
    var fragments := [];
    var k := 0;
    while k < |triangles|
      invariant 0 <= k <= |triangles|
      invariant AllTriangles(triangles[..k])
      invariant fragments == AssembleFragments(triangles[..k], step)
    {
      var tri := triangles[k];
      if |tri| < 3 {
        return Panic(IndexOutOfBounds);
      }
      var more := Triangle(tri[0], tri[1], tri[2], step);
      AssembleFragmentsSnoc(triangles, k, step);
      fragments := fragments + more;
      k := k + 1;
    }
    assert triangles[..k] == triangles;
    return Ok(fragments);
  }

  /**
   * The per-object part of `render` before painting: flatten, shade every
   * vertex, `chunks(3)`, then rasterize the chunks in order.
   */
  method CollectFragments(obj: Obj, uniforms: Uniforms, shader: (Vertex, Uniforms) -> Vertex, step: real -> real)
    returns (r: Outcome<seq<Fragment>>)
    requires Advances(step)
    ensures r == ObjFragments(obj, uniforms, shader, step)
  {
    var vertexArray := GetVertexArray(obj);
    if vertexArray.Panic? {
      return Panic(vertexArray.reason);
    }
    var newVertices := ShadeVertices(vertexArray.value, uniforms, shader);
    assert VertexStage(obj, uniforms, shader) == Ok(newVertices);
    var triangles := Chunks(newVertices, 3);
    ChunkCount(newVertices, 3);
    r := RasterizeTriangles(triangles, step);
  }

  /** The colour of the last fragment, or `initial` when there is none. */
  function LastColor(fs: seq<Fragment>, initial: Color): Color {
    if fs == [] then initial else fs[|fs| - 1].color
  }

  lemma LastColorAppend(a: seq<Fragment>, b: seq<Fragment>, initial: Color)
    ensures LastColor(a + b, initial) == LastColor(b, LastColor(a, initial))
  {
  }

  /**
   * The paint loop of `render`: for each fragment in order, set the current
   * colour to its colour, then paint its position.
   */
  method PaintFragments(framebuffer: Framebuffer, fragments: seq<Fragment>)
    modifies framebuffer
    ensures framebuffer.painted == old(framebuffer.painted) + PaintCalls(fragments)
    ensures framebuffer.currentColor == LastColor(fragments, old(framebuffer.currentColor))
  {
    var j := 0;
    while j < |fragments|
      invariant 0 <= j <= |fragments|
      invariant framebuffer.painted == old(framebuffer.painted) + PaintCalls(fragments[..j])
      invariant framebuffer.currentColor == if j == 0 then old(framebuffer.currentColor) else fragments[j - 1].color
    {
      framebuffer.SetCurrentColor(fragments[j].color);
      framebuffer.PaintPoint(fragments[j].position);
      PaintCallsAppend(fragments[..j], [fragments[j]]);
      assert fragments[..j + 1] == fragments[..j] + [fragments[j]];
      j := j + 1;
    }
    assert fragments[..j] == fragments;
  }

  /** The framebuffer's paint calls and current colour after painting `done` on top of the given starting state. */
  ghost predicate HasPainted(framebuffer: Framebuffer, startPainted: seq<PaintCall>, startColor: Color, done: seq<Fragment>)
    reads framebuffer
  {
    && framebuffer.painted == startPainted + PaintCalls(done)
    && framebuffer.currentColor == LastColor(done, startColor)
  }

  /**
   * `render`: for each object in turn, collect its fragments, then paint
   * them in list order. Only the framebuffer changes; when an object panics,
   * the framebuffer keeps what the earlier objects painted.
   */
  method Render(framebuffer: Framebuffer, data: Model, shader: (Vertex, Uniforms) -> Vertex, step: real -> real)
    returns (outcome: Outcome<()>)
    requires Advances(step)
    modifies framebuffer
    ensures framebuffer.painted == old(framebuffer.painted) + PaintCalls(RenderTrace(data.objs, data.uniforms, shader, step).painted)
    ensures framebuffer.currentColor == LastColor(RenderTrace(data.objs, data.uniforms, shader, step).painted, old(framebuffer.currentColor))
    ensures outcome.Panic? <==> RenderTrace(data.objs, data.uniforms, shader, step).panic.Some?
    ensures outcome.Panic? ==> outcome.reason == RenderTrace(data.objs, data.uniforms, shader, step).panic.value
  {
    var objs, uniforms := data.objs, data.uniforms;
    ghost var startPainted, startColor := framebuffer.painted, framebuffer.currentColor;
    ghost var results: seq<Outcome<seq<Fragment>>> := [];
    var i := 0;
    while i < |objs|
      invariant 0 <= i <= |objs|
      invariant results == ObjResults(objs[..i], uniforms, shader, step)
      invariant TraceOf(results).panic.None?
      invariant HasPainted(framebuffer, startPainted, startColor, TraceOf(results).painted)
    {
      ghost var before := TraceOf(results).painted;
      var fragments := CollectFragments(objs[i], uniforms, shader, step);
      ObjResultsSnoc(objs, i, uniforms, shader, step);
      TraceOfSnoc(results, fragments);
      results := results + [fragments];
      if fragments.Panic? {
        RenderStopsAt(objs, i, uniforms, shader, step);
        return Panic(fragments.reason);
      }
      assert TraceOf(results).painted == before + fragments.value;
      ghost var mid := framebuffer.painted;
      assert mid == startPainted + PaintCalls(before);
      PaintFragments(framebuffer, fragments.value);
      assert framebuffer.painted == mid + PaintCalls(fragments.value);
      PaintCallsAppend(before, fragments.value);
      LastColorAppend(before, fragments.value, startColor);
      AppendAssoc(startPainted, PaintCalls(before), PaintCalls(fragments.value));
      i := i + 1;
    }
    assert objs[..i] == objs;
    return Ok(());
  }
}
