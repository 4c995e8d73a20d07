/**
 * Mesh loading and index flattening (src/obj.rs). The OBJ file parser is
 * outside the model: `Load` receives the per-model meshes it would return.
 */
module Objs {
  import opened Linear
  import opened Colors
  import opened Vertices
  import opened Seqs
  import opened Outcomes

  /** A mesh as the loader hands it over: flat coordinate lists and `u32` indices. */
  datatype Mesh = Mesh(positions: seq<real>, normals: seq<real>, texcoords: seq<real>, indices: seq<nat>)

  datatype Obj = Obj(vertices: seq<Vec3>, normals: seq<Vec3>, texcoords: seq<Vec2>, indices: seq<nat>)

  const EmptyObj: Obj := Obj([], [], [], [])

  /** The coordinates of a list of 3-vectors, in order. */
  function Flatten3(vs: seq<Vec3>): (r: seq<real>)
    ensures |r| == 3 * |vs|
  {
    if vs == [] then [] else [vs[0].x, vs[0].y, vs[0].z] + Flatten3(vs[1..])
  }

  /** The coordinates of a list of 2-vectors, in order. */
  function Flatten2(vs: seq<Vec2>): (r: seq<real>)
    ensures |r| == 2 * |vs|
  {
    if vs == [] then [] else [vs[0].x, vs[0].y] + Flatten2(vs[1..])
  }

  /** `.map(|v| Vec3::new(v[0], v[1], v[2]))` over chunks: the first chunk shorter than 3 panics. */
  function Vec3sOfChunks(cs: seq<seq<real>>): (r: Outcome<seq<Vec3>>)
    ensures r.Ok? <==> forall i :: 0 <= i < |cs| ==> |cs[i]| >= 3
    ensures r.Panic? ==> r.reason == IndexOutOfBounds
    ensures r.Ok? && (forall i :: 0 <= i < |cs| ==> |cs[i]| == 3) ==> Flatten3(r.value) == Concat(cs)
  {
    if cs == [] then Ok([])
    else if |cs[0]| < 3 then Panic(IndexOutOfBounds)
    else
      match Vec3sOfChunks(cs[1..])
      case Panic(e) => Panic(e)
      case Ok(rest) =>
        var v := Vec3(cs[0][0], cs[0][1], cs[0][2]);
        var vs := [v] + rest;
        assert vs[0] == v && vs[1..] == rest;
        if |cs[0]| == 3 then
          assert cs[0] == [v.x, v.y, v.z];
          Ok(vs)
        else
          Ok(vs)
  }

  /** `.map(|t| Vec2::new(t[0], t[1]))` over chunks: the first chunk shorter than 2 panics. */
  function Vec2sOfChunks(cs: seq<seq<real>>): (r: Outcome<seq<Vec2>>)
    ensures r.Ok? <==> forall i :: 0 <= i < |cs| ==> |cs[i]| >= 2
    ensures r.Panic? ==> r.reason == IndexOutOfBounds
    ensures r.Ok? && (forall i :: 0 <= i < |cs| ==> |cs[i]| == 2) ==> Flatten2(r.value) == Concat(cs)
  {
    if cs == [] then Ok([])
    else if |cs[0]| < 2 then Panic(IndexOutOfBounds)
    else
      match Vec2sOfChunks(cs[1..])
      case Panic(e) => Panic(e)
      case Ok(rest) =>
        var v := Vec2(cs[0][0], cs[0][1]);
        var vs := [v] + rest;
        assert vs[0] == v && vs[1..] == rest;
        if |cs[0]| == 2 then
          assert cs[0] == [v.x, v.y];
          Ok(vs)
        else
          Ok(vs)
  }

  /**
   * `chunks(3)` then `Vec3::new`: succeeds exactly when the length is a
   * multiple of 3 (a trailing partial chunk panics on `v[2]`), and then yields
   * |flat| / 3 vectors whose coordinates, in order, are `flat`.
   */
  function GroupVec3(flat: seq<real>): (r: Outcome<seq<Vec3>>)
    ensures r.Ok? <==> |flat| % 3 == 0
    ensures r.Panic? ==> r.reason == IndexOutOfBounds
    ensures r.Ok? ==> |r.value| == |flat| / 3 && Flatten3(r.value) == flat
  {
    ChunkCount(flat, 3);
    Vec3sOfChunks(Chunks(flat, 3))
  }

  /**
   * `chunks(2)` then `Vec2::new`: succeeds exactly when the length is even
   * (a trailing single value panics on `t[1]`), and then yields |flat| / 2
   * vectors whose coordinates, in order, are `flat`.
   */
  function GroupVec2(flat: seq<real>): (r: Outcome<seq<Vec2>>)
    ensures r.Ok? <==> |flat| % 2 == 0
    ensures r.Panic? ==> r.reason == IndexOutOfBounds
    ensures r.Ok? ==> |r.value| == |flat| / 2 && Flatten2(r.value) == flat
  {
    ChunkCount(flat, 2);
    Vec2sOfChunks(Chunks(flat, 2))
  }

  /** The per-model conversion inside `Obj::load`: group positions, normals and texture coordinates. */
  function ConvertMesh(m: Mesh): (r: Outcome<Obj>)
    ensures r.Ok? <==> |m.positions| % 3 == 0 && |m.normals| % 3 == 0 && |m.texcoords| % 2 == 0
    ensures r.Panic? ==> r.reason == IndexOutOfBounds
    ensures r.Ok? ==>
      Flatten3(r.value.vertices) == m.positions && Flatten3(r.value.normals) == m.normals &&
      Flatten2(r.value.texcoords) == m.texcoords && r.value.indices == m.indices
  {
    match GroupVec3(m.positions)
    case Panic(e) => Panic(e)
    case Ok(vertices) =>
      match GroupVec3(m.normals)
      case Panic(e) => Panic(e)
      case Ok(normals) =>
        match GroupVec2(m.texcoords)
        case Panic(e) => Panic(e)
        case Ok(texcoords) => Ok(Obj(vertices, normals, texcoords, m.indices))
  }

  predicate AllConvert(models: seq<Mesh>) {
    forall k :: 0 <= k < |models| ==> ConvertMesh(models[k]).Ok?
  }

  /** The per-model conversions of the `map`, in model order. */
  function Conversions(models: seq<Mesh>): (rs: seq<Outcome<Obj>>)
    ensures |rs| == |models|
    ensures forall k :: 0 <= k < |models| ==> rs[k] == ConvertMesh(models[k])
  {
    seq(|models|, k requires 0 <= k < |models| => ConvertMesh(models[k]))
  }

  /**
   * The conversions as `reduce` consumes them, in order: the first model
   * that does not convert ends the fold with its panic.
   */
  function ConvertAll(models: seq<Mesh>): (r: Outcome<seq<Obj>>)
    ensures r.Ok? ==> |r.value| == |models|
  {
    Collect(Conversions(models))
  }

  /**
   * The fold succeeds exactly when every model converts, and then yields
   * each model's conversion in model order; otherwise it panics on a short
   * chunk.
   */
  lemma ConvertAllMeaning(models: seq<Mesh>)
    ensures ConvertAll(models).Ok? <==> AllConvert(models)
    ensures ConvertAll(models).Ok? ==>
      forall k :: 0 <= k < |models| ==> ConvertAll(models).value[k] == ConvertMesh(models[k]).value
    ensures ConvertAll(models).Panic? ==> ConvertAll(models).reason == IndexOutOfBounds
  {
    CollectMeaning(Conversions(models));
  }

  /** The reducer of `Obj::load`: append `b`'s four lists to `a`'s, indices unchanged. */
  function Append(a: Obj, b: Obj): (r: Obj)
    ensures |r.vertices| == |a.vertices| + |b.vertices| && |r.normals| == |a.normals| + |b.normals|
    ensures |r.texcoords| == |a.texcoords| + |b.texcoords| && |r.indices| == |a.indices| + |b.indices|
  {
    Obj(a.vertices + b.vertices, a.normals + b.normals, a.texcoords + b.texcoords, a.indices + b.indices)
  }

  /** Appending two models whose indices are in range keeps every index in range. */
  lemma AppendInRange(a: Obj, b: Obj)
    requires IndicesInRange(a) && IndicesInRange(b)
    ensures IndicesInRange(Append(a, b))
  {
    var r := Append(a, b);
    forall i | 0 <= i < |r.indices| ensures r.indices[i] < |r.vertices| {
      if i >= |a.indices| {
        assert r.indices[i] == b.indices[i - |a.indices|];
      }
    }
  }

  /** The fold of `Append` over the converted models, in order. */
  function MergeAll(objs: seq<Obj>): (m: Obj)
    ensures AllInRange(objs) ==> IndicesInRange(m)
  {
    if objs == [] then EmptyObj
    else
      var prev := MergeAll(objs[..|objs| - 1]);
      if AllInRange(objs) then
        assert AllInRange(objs[..|objs| - 1]);
        AppendInRange(prev, objs[|objs| - 1]);
        Append(prev, objs[|objs| - 1])
      else
        Append(prev, objs[|objs| - 1])
  }

  /**
   * Merging is a homomorphism: each of the four merged lists is the in-order
   * concatenation of the parts' lists, and indices are appended unchanged,
   * with no offset for the vertices that precede them.
   */
  lemma {:induction false} MergeAllSplit(a: seq<Obj>, b: seq<Obj>)
    ensures MergeAll(a + b) == Append(MergeAll(a), MergeAll(b))
    decreases |b|
  {
    if b == [] {
      assert a + b == a;
    } else {
      var init, last := b[..|b| - 1], b[|b| - 1];
      assert a + b == (a + init) + [last];
      MergeAllSnoc(a + init, last);
      MergeAllSplit(a, init);
      AppendAssociative(MergeAll(a), MergeAll(init), last);
      MergeAllSnoc(init, last);
    }
  }

  lemma AppendAssociative(x: Obj, y: Obj, z: Obj)
    ensures Append(Append(x, y), z) == Append(x, Append(y, z))
  {
    AppendAssoc(x.vertices, y.vertices, z.vertices);
    AppendAssoc(x.normals, y.normals, z.normals);
    AppendAssoc(x.texcoords, y.texcoords, z.texcoords);
    AppendAssoc(x.indices, y.indices, z.indices);
  }

  lemma MergeAllSnoc(objs: seq<Obj>, obj: Obj)
    ensures MergeAll(objs + [obj]) == Append(MergeAll(objs), obj)
  {
    assert (objs + [obj])[..|objs|] == objs;
  }

  /**
   * `Obj::load` after parsing: converts each model in order and folds them
   * with `reduce(Append).unwrap()`. No models panics on the `unwrap`; a model
   * whose flat lists are not whole vectors panics in the conversion.
   */
  method Load(models: seq<Mesh>) returns (r: Outcome<Obj>)
    ensures r.Ok? <==> |models| > 0 && AllConvert(models)
    ensures |models| == 0 ==> r == Panic(UnwrapOnNone)
    ensures |models| > 0 && r.Panic? ==> r.reason == IndexOutOfBounds
    ensures r.Ok? ==> ConvertAll(models).Ok? && r.value == MergeAll(ConvertAll(models).value)
  {
    if |models| == 0 {
      return Panic(UnwrapOnNone);
    }
    ConvertAllMeaning(models);
    r := ReduceModels(models);
  }

  /** The `map` closure applied to model `i`. */
  method ConvertAt(models: seq<Mesh>, i: nat) returns (r: Outcome<Obj>)
    requires i < |models|
    ensures r == Conversions(models)[i]
  {
    r := ConvertMesh(models[i]);
  }

  /** The `map` and `reduce` of `Obj::load` over at least one model. */
  method ReduceModels(models: seq<Mesh>) returns (r: Outcome<Obj>)
    requires |models| > 0
    ensures ConvertAll(models).Panic? ==> r == Panic(ConvertAll(models).reason)
    ensures ConvertAll(models).Ok? ==> r == Ok(MergeAll(ConvertAll(models).value))
  {
    ghost var conversions := Conversions(models);
    var first := ConvertAt(models, 0);
    CollectSnoc(conversions, 0);
    assert conversions[..0] == [];
    if first.Panic? {
      CollectPanicStays(conversions, 1);
      return Panic(first.reason);
    }
    var merged := first.value;
    ghost var converted := [first.value];
    MergeAllSnoc([], first.value);
    var i := 1;
    while i < |models|
      invariant 1 <= i <= |models|
      invariant Collect(conversions[..i]) == Ok(converted)
      invariant merged == MergeAll(converted)
    {
      var current := ConvertAt(models, i);
      CollectSnoc(conversions, i);
      if current.Panic? {
        CollectPanicStays(conversions, i + 1);
        return Panic(current.reason);
      }
      MergeAllSnoc(converted, current.value);
      converted := converted + [current.value];
      merged := Append(merged, current.value);
      i := i + 1;
    }
    assert conversions[..i] == conversions;
    return Ok(merged);
  }

  /** Every index names a stored vertex. */
  predicate IndicesInRange(obj: Obj) {
    forall i | 0 <= i < |obj.indices| :: obj.indices[i] < |obj.vertices|
  }

  /**
   * `get_vertex_array`: one vertex per index, in index order, at the indexed
   * position, with normal (0, 1, 0), texture coordinates (0, 0) and colour
   * black whatever normals and texture coordinates are stored. An index past
   * the vertex list panics on `unwrap`.
   */
  function GetVertexArray(obj: Obj): (r: Outcome<seq<Vertex>>)
    ensures r.Ok? <==> IndicesInRange(obj)
    ensures r.Panic? ==> r.reason == UnwrapOnNone
    ensures r.Ok? ==> |r.value| == |obj.indices|
    ensures r.Ok? ==> forall i :: 0 <= i < |r.value| ==>
      r.value[i].position == obj.vertices[obj.indices[i]] &&
      r.value[i].normal == UnitY && r.value[i].texCoords == Zero2 && r.value[i].color == Black
  {
    if IndicesInRange(obj) then
      Ok(seq(|obj.indices|, i requires 0 <= i < |obj.indices| => New(obj.vertices[obj.indices[i]], UnitY, Zero2)))
    else
      Panic(UnwrapOnNone)
  }

  /**
   * As written, the merge lets a later model's indices select the earlier
   * models' vertices: the first vertex produced for model `b` sits at the
   * position `a` stores under `b`'s first index.
   */
  lemma MergedIndicesReadEarlierModel(a: Obj, b: Obj)
    requires IndicesInRange(Append(a, b)) && |b.indices| > 0 && b.indices[0] < |a.vertices|
    ensures GetVertexArray(Append(a, b)).value[|a.indices|].position == a.vertices[b.indices[0]]
  {
  }

  /** Two one-triangle models, each indexing its own vertices 0, 1, 2. */
  const TriangleA: Obj := Obj([Vec3(0.0, 0.0, 0.0), Vec3(1.0, 0.0, 0.0), Vec3(0.0, 1.0, 0.0)], [], [], [0, 1, 2])
  const TriangleB: Obj := Obj([Vec3(5.0, 0.0, 0.0), Vec3(6.0, 0.0, 0.0), Vec3(5.0, 1.0, 0.0)], [], [], [0, 1, 2])

  /** Merging two models as written appends the second to the first. */
  lemma MergeTwo(a: Obj, b: Obj)
    ensures MergeAll([a, b]) == Append(a, b)
  {
    MergeAllSnoc([], a);
    assert [] + [a] == [a];
    assert Append(EmptyObj, a) == a;
    MergeAllSnoc([a], b);
    assert [a] + [b] == [a, b];
  }

  lemma TrianglesInRange()
    ensures IndicesInRange(TriangleA) && IndicesInRange(TriangleB)
  {
  }

  /** Merged as written, the second triangle is drawn over the first one's vertices and its own are lost. */
  lemma MergeLosesSecondTriangle()
    ensures var va := GetVertexArray(MergeAll([TriangleA, TriangleB]));
      va.Ok? && |va.value| == 6 &&
      va.value[3].position == TriangleA.vertices[0] &&
      va.value[3].position != TriangleB.vertices[0]
  {
    MergeTwo(TriangleA, TriangleB);
    TrianglesInRange();
    AppendInRange(TriangleA, TriangleB);
    var m := Append(TriangleA, TriangleB);
    assert m.indices == TriangleA.indices + TriangleB.indices;
    assert m.indices[3] == 0;
    assert m.vertices[0] == TriangleA.vertices[0];
  }

  /** Indices shifted by a vertex offset. */
  function Shift(indices: seq<nat>, offset: nat): (r: seq<nat>)
    ensures |r| == |indices| && forall i :: 0 <= i < |r| ==> r[i] == indices[i] + offset
  {
    seq(|indices|, i requires 0 <= i < |indices| => indices[i] + offset)
  }

  /** The intended reducer: `b`'s indices are offset by the number of vertices already merged. */
  function AppendReindexed(a: Obj, b: Obj): (r: Obj)
    ensures |r.vertices| == |a.vertices| + |b.vertices| && |r.normals| == |a.normals| + |b.normals|
    ensures |r.texcoords| == |a.texcoords| + |b.texcoords| && |r.indices| == |a.indices| + |b.indices|
  {
    Obj(a.vertices + b.vertices, a.normals + b.normals, a.texcoords + b.texcoords,
        a.indices + Shift(b.indices, |a.vertices|))
  }

  /** The intended fold: every model's indices are offset by the vertices merged before it. */
  function MergeAllReindexed(objs: seq<Obj>): (m: Obj)
    ensures AllInRange(objs) ==> IndicesInRange(m)
  {
    if objs == [] then EmptyObj
    else
      var prev := MergeAllReindexed(objs[..|objs| - 1]);
      if AllInRange(objs) then
        assert AllInRange(objs[..|objs| - 1]);
        AppendReindexedVertexArray(prev, objs[|objs| - 1]);
        AppendReindexed(prev, objs[|objs| - 1])
      else
        AppendReindexed(prev, objs[|objs| - 1])
  }

  predicate AllInRange(objs: seq<Obj>) {
    forall k :: 0 <= k < |objs| ==> IndicesInRange(objs[k])
  }

  /** Each model's own vertex array, concatenated in model order. */
  function SeparateVertexArrays(objs: seq<Obj>): (r: seq<Vertex>)
    requires AllInRange(objs)
  {
    if objs == [] then [] else SeparateVertexArrays(objs[..|objs| - 1]) + GetVertexArray(objs[|objs| - 1]).value
  }

  /** With the offset, appending two models whose indices are in range keeps every index in range. */
  lemma AppendReindexedInRange(a: Obj, b: Obj)
    requires IndicesInRange(a) && IndicesInRange(b)
    ensures IndicesInRange(AppendReindexed(a, b))
  {
    var m := AppendReindexed(a, b);
    forall i | 0 <= i < |m.indices| ensures m.indices[i] < |m.vertices| {
      if i >= |a.indices| {
        assert m.indices[i] == b.indices[i - |a.indices|] + |a.vertices|;
      }
    }
  }

  /** With the offset, appending one model appends exactly that model's vertex array. */
  lemma AppendReindexedVertexArray(a: Obj, b: Obj)
    requires IndicesInRange(a) && IndicesInRange(b)
    ensures IndicesInRange(AppendReindexed(a, b))
    ensures GetVertexArray(AppendReindexed(a, b)).value == GetVertexArray(a).value + GetVertexArray(b).value
  {
    var m := AppendReindexed(a, b);
    AppendReindexedInRange(a, b);
    var l, ra, rb := GetVertexArray(m).value, GetVertexArray(a).value, GetVertexArray(b).value;
    forall i | 0 <= i < |l| ensures l[i] == (ra + rb)[i] {
      if i >= |a.indices| {
        var j := i - |a.indices|;
        assert m.indices[i] == b.indices[j] + |a.vertices|;
        assert m.vertices[m.indices[i]] == b.vertices[b.indices[j]];
      } else {
        assert m.indices[i] == a.indices[i];
      }
    }
  }

  /**
   * With the offset, the merged model's vertex array is each model's own
   * vertex array, in model order: no triangle is lost or redirected.
   */
  lemma {:induction false} MergeReindexedVertexArray(objs: seq<Obj>)
    requires AllInRange(objs)
    ensures IndicesInRange(MergeAllReindexed(objs))
    ensures GetVertexArray(MergeAllReindexed(objs)).value == SeparateVertexArrays(objs)
  {
    if objs != [] {
      var init := objs[..|objs| - 1];
      assert AllInRange(init);
      MergeReindexedVertexArray(init);
      AppendReindexedVertexArray(MergeAllReindexed(init), objs[|objs| - 1]);
    }
  }
}
