/** `LoadGltfMeshAsserts`: turns a parsed glTF asset into one mesh asset per
    source mesh. For each mesh the index and vertex vectors are cleared, then
    each primitive appends its indices (rebased by the number of vertices
    collected so far), grows the vertex vector by its position count and
    writes the new vertices in place, and records one surface (start offset
    and index count).

    The asset is given as plain sequences: a primitive is its index list and
    its position list, so the indices accessor and the POSITION attribute are
    always present. Positions and colours are opaque tuples of reals.
    `loadMeshBuffer` is opaque: a mesh records the vertex and index lists it
    was handed. */
module GltfLoader {
  import opened VkTypes

  datatype Vec3 = Vec3(x: real, y: real, z: real)
  datatype Vec4 = Vec4(x: real, y: real, z: real, w: real)

  /** The engine's vertex: a homogeneous position and a colour. */
  datatype Vertex = Vertex(position: Vec4, color: Vec4)

  /** `Vertex{}`: every component zero, which is what `resize` appends. */
  const DefaultVertex := Vertex(Vec4(0.0, 0.0, 0.0, 0.0), Vec4(0.0, 0.0, 0.0, 0.0))

  /** A glTF primitive: the values of its indices accessor and of its
      POSITION accessor. */
  datatype Primitive = Primitive(indices: seq<u32>, positions: seq<Vec3>)

  datatype SourceMesh = SourceMesh(name: string, primitives: seq<Primitive>)

  /** What fastgltf hands back: a load error, a parse error (each with its
      error code) or the parsed asset's meshes. */
  datatype GltfInput =
    | LoadFailed(loadError: int)
    | ParseFailed(parseError: int)
    | Loaded(meshes: seq<SourceMesh>)

  /** `GeoSurface`: a range of the mesh's index list. */
  datatype GeoSurface = GeoSurface(startIndex: u32, indexCount: u32)

  /** The two lists passed to `loadMeshBuffer`. */
  datatype MeshData = MeshData(vertices: seq<Vertex>, indices: seq<u32>)

  /** `MeshAssert`. */
  datatype MeshAssert = MeshAssert(name: string, surfaces: seq<GeoSurface>, meshBuffer: MeshData)

  // ---------------------------------------------------------------------
  // What the loops build, as functions of the primitives seen so far

  /** The name a mesh asset gets. */
  function DisplayName(name: string): (r: string)
    ensures name == [] ==> r == "unknown name"
    ensures name != [] ==> r == name
  {
    if |name| == 0 then "unknown name" else name
  }

  /** The vertex written for source position `p`. */
  function VertexOf(p: Vec3): Vertex {
    Vertex(Vec4(p.x, p.y, p.z, 1.0), Vec4(1.0, 0.0, 0.0, 1.0))
  }

  /** A primitive's indices, each plus `base` and stored in a `uint32_t`. */
  function Rebase(idx: seq<u32>, base: nat): (r: seq<u32>)
    ensures |r| == |idx|
    ensures forall k :: 0 <= k < |idx| ==> r[k] == Narrow(idx[k] + base)
  {
    if idx == [] then [] else Rebase(idx[..|idx| - 1], base) + [Narrow(idx[|idx| - 1] + base)]
  }

  /** A primitive's positions as vertices. */
  function PositionVertices(ps: seq<Vec3>): (r: seq<Vertex>)
    ensures |r| == |ps|
    ensures forall k :: 0 <= k < |ps| ==> r[k] == VertexOf(ps[k])
  {
    if ps == [] then [] else PositionVertices(ps[..|ps| - 1]) + [VertexOf(ps[|ps| - 1])]
  }

  /** The vertex list after the first `n` primitives of a mesh. */
  function VerticesUpTo(prims: seq<Primitive>, n: nat): seq<Vertex>
    requires n <= |prims|
  {
    if n == 0 then [] else VerticesUpTo(prims, n - 1) + PositionVertices(prims[n - 1].positions)
  }

  /** The index list after the first `n` primitives: each primitive's
      indices are rebased by the number of vertices before it. */
  function IndicesUpTo(prims: seq<Primitive>, n: nat): seq<u32>
    requires n <= |prims|
  {
    if n == 0 then []
    else IndicesUpTo(prims, n - 1) + Rebase(prims[n - 1].indices, |VerticesUpTo(prims, n - 1)|)
  }

  /** The surfaces after the first `n` primitives: one per primitive,
      starting at the number of indices before it. */
  function SurfacesUpTo(prims: seq<Primitive>, n: nat): (r: seq<GeoSurface>)
    requires n <= |prims|
    ensures |r| == n
  {
    if n == 0 then []
    else
      SurfacesUpTo(prims, n - 1) +
        [GeoSurface(Narrow(|IndicesUpTo(prims, n - 1)|), Narrow(|prims[n - 1].indices|))]
  }

  /** The mesh asset built from one source mesh. */
  function MeshOf(mesh: SourceMesh): MeshAssert {
    var prims := mesh.primitives;
    MeshAssert(DisplayName(mesh.name), SurfacesUpTo(prims, |prims|),
               MeshData(VerticesUpTo(prims, |prims|), IndicesUpTo(prims, |prims|)))
  }

  /** The mesh assets built from the source meshes, one each, in order; each
      depends on its own source mesh only. */
  function MeshesOf(ms: seq<SourceMesh>): (r: seq<MeshAssert>)
    ensures |r| == |ms|
    ensures forall k :: 0 <= k < |ms| ==> r[k] == MeshOf(ms[k])
  {
    if ms == [] then [] else MeshesOf(ms[..|ms| - 1]) + [MeshOf(ms[|ms| - 1])]
  }

  /** What `LoadGltfMeshAsserts` returns. */
  function LoadedMeshes(input: GltfInput): (r: seq<MeshAssert>)
    ensures !input.Loaded? ==> r == []
    ensures input.Loaded? ==> |r| == |input.meshes|
  {
    if input.Loaded? then MeshesOf(input.meshes) else []
  }

  // ---------------------------------------------------------------------
  // What the assembly promises

  /** Later primitives only append: the index list after `k` primitives is a
      prefix of the one after `n >= k`. */
  lemma {:induction false} IndicesGrow(prims: seq<Primitive>, k: nat, n: nat)
    requires k <= n <= |prims|
    ensures IndicesUpTo(prims, k) <= IndicesUpTo(prims, n)
    decreases n
  {
    if k < n {
      IndicesGrow(prims, k, n - 1);
    }
  }

  /** Likewise for the vertex list. */
  lemma {:induction false} VerticesGrow(prims: seq<Primitive>, k: nat, n: nat)
    requires k <= n <= |prims|
    ensures VerticesUpTo(prims, k) <= VerticesUpTo(prims, n)
    decreases n
  {
    if k < n {
      VerticesGrow(prims, k, n - 1);
    }
  }

  /** Likewise for the surfaces. */
  lemma {:induction false} SurfacesGrow(prims: seq<Primitive>, k: nat, n: nat)
    requires k <= n <= |prims|
    ensures SurfacesUpTo(prims, k) == SurfacesUpTo(prims, n)[..k]
    decreases n
  {
    if k < n {
      SurfacesGrow(prims, k, n - 1);
      assert SurfacesUpTo(prims, n)[..n - 1] == SurfacesUpTo(prims, n - 1);
    }
  }

  /** Position `|a| + j` of a list that starts with `a + b` holds `b[j]`. */
  lemma AtExtension<T>(a: seq<T>, b: seq<T>, c: seq<T>, j: nat)
    requires a + b <= c && j < |b|
    ensures |a| + j < |c| && c[|a| + j] == b[j]
  {
    assert (a + b)[|a| + j] == b[j];
  }

  lemma RebaseAt(source: seq<u32>, base: nat, j: nat)
    requires j < |source|
    ensures Rebase(source, base)[j] == Narrow(source[j] + base)
  {
  }

  /** One surface per primitive, in primitive order: surface `k` starts at the
      number of indices collected before primitive `k` and counts that
      primitive's indices (both stored in `uint32_t`). */
  lemma SurfaceAt(prims: seq<Primitive>, k: nat)
    requires k < |prims|
    ensures |SurfacesUpTo(prims, |prims|)| == |prims|
    ensures SurfacesUpTo(prims, |prims|)[k] ==
      GeoSurface(Narrow(|IndicesUpTo(prims, k)|), Narrow(|prims[k].indices|))
  {
    SurfacesGrow(prims, k + 1, |prims|);
    var through := SurfacesUpTo(prims, k + 1);
    assert through == SurfacesUpTo(prims, k) + [through[k]];
    assert SurfacesUpTo(prims, |prims|)[k] == through[k];
  }

  /** Every index emitted for primitive `k` is the source index plus the
      number of vertices collected before that primitive (in `uint32_t`). */
  lemma IndexRebased(prims: seq<Primitive>, k: nat, j: nat)
    requires k < |prims| && j < |prims[k].indices|
    ensures |IndicesUpTo(prims, k)| + j < |IndicesUpTo(prims, |prims|)|
    ensures IndicesUpTo(prims, |prims|)[|IndicesUpTo(prims, k)| + j] ==
      Narrow(prims[k].indices[j] + |VerticesUpTo(prims, k)|)
  {
    var base := |VerticesUpTo(prims, k)|;
    IndicesGrow(prims, k + 1, |prims|);
    AtExtension(IndicesUpTo(prims, k), Rebase(prims[k].indices, base), IndicesUpTo(prims, |prims|), j);
    RebaseAt(prims[k].indices, base, j);
  }

  /** Vertex `initialVtx + i` of the mesh is built from position `i` of
      primitive `k`, where `initialVtx` counts the vertices before it. */
  lemma VertexAt(prims: seq<Primitive>, k: nat, i: nat)
    requires k < |prims| && i < |prims[k].positions|
    ensures |VerticesUpTo(prims, k)| + i < |VerticesUpTo(prims, |prims|)|
    ensures VerticesUpTo(prims, |prims|)[|VerticesUpTo(prims, k)| + i] == VertexOf(prims[k].positions[i])
  {
    VerticesGrow(prims, k + 1, |prims|);
    AtExtension(VerticesUpTo(prims, k), PositionVertices(prims[k].positions), VerticesUpTo(prims, |prims|), i);
  }

  /** The surfaces tile the index list: the first starts at 0, each ends where
      the next starts, and the last ends at the end of the list (as long as
      the list fits the `uint32_t` offsets). */
  lemma SurfacesTile(prims: seq<Primitive>, k: nat)
    requires k < |prims| && |IndicesUpTo(prims, |prims|)| < U32_LIMIT
    ensures k == 0 ==> SurfacesUpTo(prims, |prims|)[k].startIndex == 0
    ensures SurfacesUpTo(prims, |prims|)[k].startIndex + SurfacesUpTo(prims, |prims|)[k].indexCount ==
      if k + 1 < |prims| then SurfacesUpTo(prims, |prims|)[k + 1].startIndex
      else |IndicesUpTo(prims, |prims|)|
  {
    var all := SurfacesUpTo(prims, |prims|);
    var before, count := |IndicesUpTo(prims, k)|, |prims[k].indices|;
    var through := |IndicesUpTo(prims, k + 1)|;
    IndexCountStep(prims, k);
    assert all[k].startIndex == before && all[k].indexCount == count by {
      SurfaceAt(prims, k);
    }
    if k + 1 < |prims| {
      assert all[k + 1].startIndex == through by {
        SurfaceAt(prims, k + 1);
      }
    }
  }

  /** Primitive `k` adds its index count to the running total, which never
      exceeds the mesh's. */
  lemma IndexCountStep(prims: seq<Primitive>, k: nat)
    requires k < |prims|
    ensures |IndicesUpTo(prims, k + 1)| == |IndicesUpTo(prims, k)| + |prims[k].indices|
    ensures |IndicesUpTo(prims, k + 1)| <= |IndicesUpTo(prims, |prims|)|
  {
    IndicesGrow(prims, k + 1, |prims|);
  }

  /** Every source index addresses a position of its own primitive. */
  ghost predicate IndicesInRange(prims: seq<Primitive>) {
    forall k, j :: 0 <= k < |prims| && 0 <= j < |prims[k].indices| ==>
      prims[k].indices[j] < |prims[k].positions|
  }

  /** Given in-range source indices (and a vertex count that fits the
      `uint32_t` indices), every index emitted after any number of primitives
      addresses a vertex collected so far. */
  lemma {:induction false} RebasedIndicesInRange(prims: seq<Primitive>, n: nat)
    requires n <= |prims| && IndicesInRange(prims) && |VerticesUpTo(prims, n)| < U32_LIMIT
    ensures forall i :: 0 <= i < |IndicesUpTo(prims, n)| ==> IndicesUpTo(prims, n)[i] < |VerticesUpTo(prims, n)|
  {
    if n > 0 {
      var last := prims[n - 1];
      var base := |VerticesUpTo(prims, n - 1)|;
      RebasedIndicesInRange(prims, n - 1);
      var r := Rebase(last.indices, base);
      forall j | 0 <= j < |r| ensures r[j] < |VerticesUpTo(prims, n)| {
        assert last.indices[j] < |last.positions|;
      }
    }
  }

  /** With in-range source indices and a vertex count that fits, the
      `uint32_t` store loses nothing: the emitted index is exactly the sum. */
  lemma RebaseExact(prims: seq<Primitive>, k: nat, j: nat)
    requires IndicesInRange(prims) && |VerticesUpTo(prims, |prims|)| < U32_LIMIT
    requires k < |prims| && j < |prims[k].indices|
    ensures |IndicesUpTo(prims, k)| + j < |IndicesUpTo(prims, |prims|)|
    ensures IndicesUpTo(prims, |prims|)[|IndicesUpTo(prims, k)| + j] ==
      prims[k].indices[j] + |VerticesUpTo(prims, k)|
  {
    IndexRebased(prims, k, j);
    VertexAt(prims, k, prims[k].indices[j]);
  }

  /** A mesh's lists depend on its own primitives only: the result for mesh
      `i` is the same whatever the other meshes hold. */
  lemma MeshesIndependent(ms: seq<SourceMesh>, ms': seq<SourceMesh>, i: nat)
    requires i < |ms| && i < |ms'| && ms[i] == ms'[i]
    ensures LoadedMeshes(Loaded(ms))[i] == LoadedMeshes(Loaded(ms'))[i]
    ensures LoadedMeshes(Loaded(ms))[i].name == DisplayName(ms[i].name)
  {
  }

  // ---------------------------------------------------------------------
  // The loader itself

  /** The index-loading block: appends the primitive's indices, each plus
      `initialVtx`, narrowed to `uint32_t`. */
  method LoadIndices(indices: seq<u32>, source: seq<u32>, initialVtx: nat) returns (r: seq<u32>)
    ensures r == indices + Rebase(source, initialVtx)
  {
    r := indices;
    for j := 0 to |source|
      invariant r == indices + Rebase(source[..j], initialVtx)
    {
      assert source[..j + 1][..j] == source[..j];
      r := r + [Narrow(source[j] + initialVtx)];
    }
    assert source[..|source|] == source;
  }

  /** The vertex-loading block: grows the vertex list by the position count
      with `Vertex{}`, then writes each new vertex in place. */
  method LoadVertices(vertices: seq<Vertex>, positions: seq<Vec3>) returns (r: seq<Vertex>)
    ensures r == vertices + PositionVertices(positions)
  {
    var initialVtx := |vertices|;
    r := vertices + seq(|positions|, _ => DefaultVertex);
    for i := 0 to |positions|
      invariant |r| == initialVtx + |positions|
      invariant forall k :: 0 <= k < |r| ==>
        r[k] == if k < initialVtx then vertices[k]
                else if k < initialVtx + i then VertexOf(positions[k - initialVtx])
                else DefaultVertex
    {
      r := r[initialVtx + i := VertexOf(positions[i])];
    }
    assert r == vertices + PositionVertices(positions);
  }

  /** The body of the mesh loop: clears both lists and walks the primitives. */
  method AssembleMesh(mesh: SourceMesh) returns (m: MeshAssert)
    ensures m == MeshOf(mesh)
  {
    var prims := mesh.primitives;
    var name := DisplayName(mesh.name);
    var surfaces: seq<GeoSurface> := [];
    var indices: seq<u32> := [];
    var vertices: seq<Vertex> := [];
    for p := 0 to |prims|
      invariant indices == IndicesUpTo(prims, p)
      invariant vertices == VerticesUpTo(prims, p)
      invariant surfaces == SurfacesUpTo(prims, p)
    {
      var primitive := prims[p];
      var newSurface := GeoSurface(Narrow(|indices|), Narrow(|primitive.indices|));
      var initialVtx := |vertices|;
      indices := LoadIndices(indices, primitive.indices, initialVtx);
      vertices := LoadVertices(vertices, primitive.positions);
      surfaces := surfaces + [newSurface];
    }
    m := MeshAssert(name, surfaces, MeshData(vertices, indices));
  }

  /** `LoadGltfMeshAsserts`: nothing on a load or parse error, otherwise one
      mesh asset per source mesh, in order. */
  method LoadGltfMeshAsserts(input: GltfInput) returns (res: seq<MeshAssert>)
    ensures res == LoadedMeshes(input)
  {
    if input.LoadFailed? || input.ParseFailed? {
      return [];
    }
    var meshes := input.meshes;
    res := [];
    for i := 0 to |meshes|
      invariant res == MeshesOf(meshes[..i])
    {
      var meshAssert := AssembleMesh(meshes[i]);
      assert meshes[..i + 1][..i] == meshes[..i];
      res := res + [meshAssert];
    }
    assert meshes[..|meshes|] == meshes;
  }
}
