/**
 * A scene model: loading an imported scene by walking its node tree in
 * pre-order and flattening every mesh it meets into one render mesh (three
 * parallel vertex streams and a 16-bit index stream) with one submesh range
 * per imported mesh.
 *
 * The importer's result is a parameter of LoadModelFile (None when the file
 * could not be read). The tangent-space handedness test, a float cross and
 * dot product, is a parameter too.
 */
module Scene {
  import opened Wrappers
  import opened Vk
  import opened MeshLayout
  import RenderTexture

  /** One polygon of an imported mesh: 32-bit indices into that mesh's vertices. */
  datatype ImportFace = ImportFace(indices: seq<nat>)

  /**
   * An imported mesh: per-vertex attribute arrays (positions, normals,
   * tangents, bitangents), the optional first texture-coordinate channel, the
   * faces and the material index.
   */
  datatype ImportMesh = ImportMesh(vertices: seq<Vector3>, normals: seq<Vector3>, tangents: seq<Vector3>,
                                   bitangents: seq<Vector3>, texcoords: Option<seq<Vector3>>,
                                   faces: seq<ImportFace>, materialIndex: nat)

  /** A node of the imported hierarchy: indices into the scene's mesh array, then child nodes. */
  datatype ImportNode = ImportNode(meshes: seq<nat>, children: seq<ImportNode>)

  datatype ImportScene = ImportScene(meshes: seq<ImportMesh>, root: ImportNode)

  /** The float test `cross(normal, tangent) . bitangent < 0`, left abstract. */
  type HandednessTest = (Vector3, Vector3, Vector3) -> bool

  /**
   * What the flattening assumes of a mesh: normal, tangent and bitangent
   * arrays present and as long as the vertex array (the code reads them
   * unchecked), face indices naming vertices, 32-bit values.
   */
  ghost predicate WellFormedMesh(m: ImportMesh) {
    && |m.normals| == |m.vertices| && |m.tangents| == |m.vertices| && |m.bitangents| == |m.vertices|
    && (m.texcoords.Some? ==> |m.texcoords.value| == |m.vertices|)
    && (forall f | 0 <= f < |m.faces| :: forall j | 0 <= j < |m.faces[f].indices| ::
          m.faces[f].indices[j] < |m.vertices| && m.faces[f].indices[j] < U32Modulus)
    && m.materialIndex < U32Modulus
  }

  ghost predicate WellFormedScene(scene: ImportScene) {
    forall i | 0 <= i < |scene.meshes| :: WellFormedMesh(scene.meshes[i])
  }

  /** Every mesh index of a node and of its descendants names a mesh of the scene. */
  ghost predicate NodeRefsValid(scene: ImportScene, node: ImportNode)
    decreases node
  {
    && (forall k | 0 <= k < |node.meshes| :: node.meshes[k] < |scene.meshes|)
    && (forall c | 0 <= c < |node.children| :: NodeRefsValid(scene, node.children[c]))
  }

  ghost predicate RefsIn(scene: ImportScene, ids: seq<nat>) {
    forall k | 0 <= k < |ids| :: ids[k] < |scene.meshes|
  }

  /** The mesh indices a walk of the node visits: its own meshes in order, then each child's walk in order. */
  function PreOrder(node: ImportNode): seq<nat>
    decreases node, 1
  {
    node.meshes + PreOrderList(node.children)
  }

  function PreOrderList(nodes: seq<ImportNode>): seq<nat>
    decreases nodes, 0
  {
    if nodes == [] then [] else PreOrder(nodes[0]) + PreOrderList(nodes[1..])
  }

  lemma {:induction false} PreOrderListSnoc(nodes: seq<ImportNode>, c: nat)
    requires c < |nodes|
    ensures PreOrderList(nodes[..c + 1]) == PreOrderList(nodes[..c]) + PreOrder(nodes[c])
    decreases c
  {
    if c == 0 {
      assert nodes[..1][1..] == [];
    } else {
      assert nodes[..c + 1][1..] == nodes[1..][..c];
      assert nodes[..c][1..] == nodes[1..][..c - 1];
      PreOrderListSnoc(nodes[1..], c - 1);
    }
  }

  /** A walk of a well-formed hierarchy only visits meshes of the scene. */
  lemma {:induction false} PreOrderRefsIn(scene: ImportScene, node: ImportNode)
    requires NodeRefsValid(scene, node)
    ensures RefsIn(scene, PreOrder(node))
    decreases node, 1
  {
    PreOrderListRefsIn(scene, node.children);
  }

  lemma {:induction false} PreOrderListRefsIn(scene: ImportScene, nodes: seq<ImportNode>)
    requires forall c | 0 <= c < |nodes| :: NodeRefsValid(scene, nodes[c])
    ensures RefsIn(scene, PreOrderList(nodes))
    decreases nodes, 0
  {
    if nodes != [] {
      PreOrderRefsIn(scene, nodes[0]);
      PreOrderListRefsIn(scene, nodes[1..]);
    }
  }

  /** The 32-bit material index read as a signed int. */
  function Int32Of(n: nat): (r: int)
    requires n < U32Modulus
    ensures -0x8000_0000 <= r < 0x8000_0000
    ensures (r - n) % U32Modulus == 0
  {
    if n < 0x8000_0000 then n else n - U32Modulus
  }

  /** A mesh's face indices, face after face. */
  function FaceIndices(faces: seq<ImportFace>): seq<nat> {
    if faces == [] then [] else FaceIndices(faces[..|faces| - 1]) + faces[|faces| - 1].indices
  }

  lemma {:induction false} FaceIndicesBounded(m: ImportMesh, n: nat)
    requires WellFormedMesh(m) && n <= |m.faces|
    ensures forall k | 0 <= k < |FaceIndices(m.faces[..n])| ::
              FaceIndices(m.faces[..n])[k] < |m.vertices| && FaceIndices(m.faces[..n])[k] < U32Modulus
  {
    if n > 0 {
      assert m.faces[..n][..n - 1] == m.faces[..n - 1];
      FaceIndicesBounded(m, n - 1);
    }
  }

  /**
   * Each index as stored: the face index plus `base` in 32-bit unsigned
   * arithmetic, then narrowed to the 16-bit index stream.
   */
  function OffsetIndices(raw: seq<nat>, base: nat): (r: seq<U16>)
    ensures |r| == |raw|
  {
    seq(|raw|, k requires 0 <= k < |raw| => (raw[k] + base) % U32Modulus % U16Modulus)
  }

  /** The 32-bit wrap disappears under the 16-bit narrowing: a stored index is the sum modulo 2^16. */
  lemma OffsetIndicesModulo(raw: seq<nat>, base: nat, k: nat)
    requires k < |raw|
    ensures OffsetIndices(raw, base)[k] == (raw[k] + base) % U16Modulus
  {
    var s := raw[k] + base;
    var q := s / U32Modulus;
    assert s == q * U32Modulus + s % U32Modulus;
    assert q * U32Modulus == (q * U16Modulus) * U16Modulus;
  }

  function PositionsOf(m: ImportMesh): (r: seq<VertexPosition>)
    ensures |r| == |m.vertices|
  {
    seq(|m.vertices|, i requires 0 <= i < |m.vertices| => VertexPosition(m.vertices[i]))
  }

  /** Normal, and tangent with w = -1 for a mirrored tangent frame, +1 otherwise. */
  function NormalsOf(m: ImportMesh, isMirrored: HandednessTest): (r: seq<VertexNormal>)
    requires WellFormedMesh(m)
    ensures |r| == |m.vertices|
    ensures TangentSigns(r)
  {
    seq(|m.vertices|, i requires 0 <= i < |m.vertices| =>
      var t := m.tangents[i];
      VertexNormal(m.normals[i], Vector4(t.x, t.y, t.z, if isMirrored(m.normals[i], t, m.bitangents[i]) then -1.0 else 1.0)))
  }

  /** Channel 0's (x, y) when the mesh has that channel, zero otherwise. */
  function TexcoordsOf(m: ImportMesh): (r: seq<VertexTexcoord>)
    requires WellFormedMesh(m)
    ensures |r| == |m.vertices|
  {
    match m.texcoords
    case None => seq(|m.vertices|, i => VertexTexcoord(Vector2Zero))
    case Some(tc) => seq(|m.vertices|, i requires 0 <= i < |m.vertices| => VertexTexcoord(Vector2(tc[i].x, tc[i].y)))
  }

  /** The part of a model's state the flattening writes: the mesh's four streams, the ranges, the running count. */
  datatype Flattened = Flattened(positions: seq<VertexPosition>, normals: seq<VertexNormal>,
                                 texcoords: seq<VertexTexcoord>, indices: seq<U16>,
                                 submeshes: seq<RenderSubmesh>, indexCount: nat)

  const EmptyFlattened: Flattened := Flattened([], [], [], [], [], 0)

  /**
   * processMesh with a given index base: append the vertices, append the face
   * indices offset by `base`, and append a submesh whose range starts at the
   * running index count, with vertex offset 0 and the mesh's material.
   */
  function AppendMesh(st: Flattened, m: ImportMesh, isMirrored: HandednessTest, parent: RenderMesh?, base: nat)
    : Flattened
    requires WellFormedMesh(m)
  {
    var raw := FaceIndices(m.faces);
    var count := |raw| % U32Modulus;
    Flattened(st.positions + PositionsOf(m), st.normals + NormalsOf(m, isMirrored), st.texcoords + TexcoordsOf(m),
              st.indices + OffsetIndices(raw, base),
              st.submeshes + [RenderSubmesh(count, st.indexCount, 0, Int32Of(m.materialIndex), parent)],
              (st.indexCount + count) % U32Modulus)
  }

  /**
   * processMesh as written: the index base is the running INDEX count. The
   * streams grow by the mesh's vertices and faces' indices, with what was
   * there before kept, and one range is added: it starts at the running
   * count, covers the mesh's indices and carries its material.
   */
  function ProcessMeshSpec(st: Flattened, m: ImportMesh, isMirrored: HandednessTest, parent: RenderMesh?)
    : (r: Flattened)
    requires WellFormedMesh(m)
    ensures |r.positions| == |st.positions| + |m.vertices| && |r.normals| == |st.normals| + |m.vertices|
    ensures |r.texcoords| == |st.texcoords| + |m.vertices|
    ensures |r.indices| == |st.indices| + |FaceIndices(m.faces)|
    ensures forall k | 0 <= k < |st.indices| :: r.indices[k] == st.indices[k]
    ensures r.submeshes == st.submeshes + [RenderSubmesh(|FaceIndices(m.faces)| % U32Modulus, st.indexCount, 0,
                                                         Int32Of(m.materialIndex), parent)]
    ensures r.indexCount == (st.indexCount + |FaceIndices(m.faces)|) % U32Modulus
  {
    AppendMesh(st, m, isMirrored, parent, st.indexCount)
  }

  /**
   * processMesh with the evidently intended index base: the number of
   * vertices already in the streams, so that indices address this mesh's own
   * vertices.
   */
  function ProcessMeshCorrected(st: Flattened, m: ImportMesh, isMirrored: HandednessTest, parent: RenderMesh?)
    : (r: Flattened)
    requires WellFormedMesh(m)
    ensures |r.positions| == |st.positions| + |m.vertices| && |r.normals| == |st.normals| + |m.vertices|
    ensures |r.texcoords| == |st.texcoords| + |m.vertices|
    ensures |r.indices| == |st.indices| + |FaceIndices(m.faces)|
    ensures forall k | 0 <= k < |st.indices| :: r.indices[k] == st.indices[k]
    ensures r.submeshes == st.submeshes + [RenderSubmesh(|FaceIndices(m.faces)| % U32Modulus, st.indexCount, 0,
                                                         Int32Of(m.materialIndex), parent)]
    ensures r.indexCount == (st.indexCount + |FaceIndices(m.faces)|) % U32Modulus
  {
    AppendMesh(st, m, isMirrored, parent, |st.positions|)
  }

  /**
   * The flattening of a sequence of meshes of the scene, in order: one range
   * per mesh is added, and the ranges, indices and vertices already there are
   * kept.
   */
  function FoldMeshes(st: Flattened, scene: ImportScene, ids: seq<nat>, isMirrored: HandednessTest,
                      parent: RenderMesh?): (r: Flattened)
    requires WellFormedScene(scene) && RefsIn(scene, ids)
    ensures |r.submeshes| == |st.submeshes| + |ids|
    ensures forall k | 0 <= k < |st.submeshes| :: r.submeshes[k] == st.submeshes[k]
    ensures |st.indices| <= |r.indices| && forall k | 0 <= k < |st.indices| :: r.indices[k] == st.indices[k]
    ensures |st.positions| <= |r.positions| && forall k | 0 <= k < |st.positions| :: r.positions[k] == st.positions[k]
    decreases |ids|
  {
    if ids == [] then st
    else ProcessMeshCorrected(FoldMeshes(st, scene, ids[..|ids| - 1], isMirrored, parent),
                              scene.meshes[ids[|ids| - 1]], isMirrored, parent)
  }

  lemma {:induction false} FoldMeshesAppend(st: Flattened, scene: ImportScene, a: seq<nat>, b: seq<nat>,
                                            isMirrored: HandednessTest, parent: RenderMesh?)
    requires WellFormedScene(scene) && RefsIn(scene, a) && RefsIn(scene, b)
    ensures RefsIn(scene, a + b)
    ensures FoldMeshes(st, scene, a + b, isMirrored, parent)
            == FoldMeshes(FoldMeshes(st, scene, a, isMirrored, parent), scene, b, isMirrored, parent)
    decreases |b|
  {
    if b == [] {
      assert a + b == a;
    } else {
      assert (a + b)[..|a + b| - 1] == a + b[..|b| - 1];
      FoldMeshesAppend(st, scene, a, b[..|b| - 1], isMirrored, parent);
    }
  }

  lemma ModAdd(a: nat, b: nat)
    ensures (a % U32Modulus + b % U32Modulus) % U32Modulus == (a + b) % U32Modulus
    ensures (a % U32Modulus + b) % U32Modulus == (a + b) % U32Modulus
  {
    var qa, qb := a / U32Modulus, b / U32Modulus;
    assert a == qa * U32Modulus + a % U32Modulus;
    assert b == qb * U32Modulus + b % U32Modulus;
  }

  function SumCounts(subs: seq<RenderSubmesh>): nat {
    if subs == [] then 0 else SumCounts(subs[..|subs| - 1]) + subs[|subs| - 1].indexCount
  }

  /**
   * Each submesh starts where the previous ones end (in 32 bits), has a
   * 32-bit length and vertex offset 0.
   */
  ghost predicate Contiguous(subs: seq<RenderSubmesh>) {
    subs == [] ||
    var prefix, last := subs[..|subs| - 1], subs[|subs| - 1];
    && Contiguous(prefix)
    && last.indexOffset == SumCounts(prefix) % U32Modulus
    && last.indexCount < U32Modulus
    && last.vertexOffset == 0
  }

  /** In contiguous ranges, range k starts at the total length of ranges 0 .. k-1. */
  lemma {:induction false} ContiguousOffsets(subs: seq<RenderSubmesh>, k: nat)
    requires Contiguous(subs) && k < |subs|
    ensures subs[k].indexOffset == SumCounts(subs[..k]) % U32Modulus
    ensures subs[k].vertexOffset == 0
    decreases |subs|
  {
    if k < |subs| - 1 {
      var prefix := subs[..|subs| - 1];
      ContiguousOffsets(prefix, k);
      assert prefix[..k] == subs[..k];
    } else {
      assert subs[..k] == subs[..|subs| - 1];
    }
  }

  ghost predicate TangentSigns(normals: seq<VertexNormal>) {
    forall k | 0 <= k < |normals| :: normals[k].tangent.w == 1.0 || normals[k].tangent.w == -1.0
  }

  /**
   * What the flattening keeps true: the three vertex streams have equal
   * length, every tangent has w = +1 or -1, the ranges are contiguous, and the
   * running count equals both the sum of the range lengths and the index
   * stream's length (in 32 bits).
   */
  ghost predicate FlatInvariant(st: Flattened) {
    && |st.positions| == |st.normals| == |st.texcoords|
    && TangentSigns(st.normals)
    && Contiguous(st.submeshes)
    && st.indexCount == SumCounts(st.submeshes) % U32Modulus
    && st.indexCount == |st.indices| % U32Modulus
  }

  lemma FlatInvariantEmpty()
    ensures FlatInvariant(EmptyFlattened)
  {
  }

  lemma TangentSignsAppend(a: seq<VertexNormal>, b: seq<VertexNormal>)
    requires TangentSigns(a) && TangentSigns(b)
    ensures TangentSigns(a + b)
  {
    forall k | 0 <= k < |a + b|
      ensures (a + b)[k].tangent.w == 1.0 || (a + b)[k].tangent.w == -1.0
    {
      if k >= |a| {
        assert (a + b)[k] == b[k - |a|];
      }
    }
  }

  /** Processing one mesh keeps the invariant, whatever index base it uses. */
  lemma AppendMeshPreserves(st: Flattened, m: ImportMesh, isMirrored: HandednessTest, parent: RenderMesh?, base: nat)
    requires WellFormedMesh(m) && FlatInvariant(st)
    ensures FlatInvariant(AppendMesh(st, m, isMirrored, parent, base))
  {
    var raw := FaceIndices(m.faces);
    var r := AppendMesh(st, m, isMirrored, parent, base);
    var last := RenderSubmesh(|raw| % U32Modulus, st.indexCount, 0, Int32Of(m.materialIndex), parent);
    assert r.submeshes == st.submeshes + [last];
    ContiguousSnoc(st.submeshes, last);
    var c := |raw| % U32Modulus;
    assert r.indexCount == (st.indexCount + c) % U32Modulus;
    assert r.indexCount == SumCounts(r.submeshes) % U32Modulus by {
      ModAdd(SumCounts(st.submeshes), c);
      assert c % U32Modulus == c;
    }
    assert r.indexCount == |r.indices| % U32Modulus by {
      assert |r.indices| == |st.indices| + |raw|;
      ModAdd(|st.indices|, |raw|);
    }
    TangentSignsAppend(st.normals, NormalsOf(m, isMirrored));
  }

  /** A range that starts where the contiguous ones end extends them. */
  lemma ContiguousSnoc(subs: seq<RenderSubmesh>, last: RenderSubmesh)
    requires Contiguous(subs) && last.indexOffset == SumCounts(subs) % U32Modulus
    requires last.indexCount < U32Modulus && last.vertexOffset == 0
    ensures Contiguous(subs + [last]) && SumCounts(subs + [last]) == SumCounts(subs) + last.indexCount
  {
    assert (subs + [last])[..|subs|] == subs;
  }

  /** Flattening any sequence of meshes keeps the invariant and adds one range per mesh. */
  lemma {:induction false} FoldMeshesPreserves(st: Flattened, scene: ImportScene, ids: seq<nat>,
                                               isMirrored: HandednessTest, parent: RenderMesh?)
    requires WellFormedScene(scene) && RefsIn(scene, ids) && FlatInvariant(st)
    ensures var r := FoldMeshes(st, scene, ids, isMirrored, parent);
            && FlatInvariant(r)
            && |r.submeshes| == |st.submeshes| + |ids|
    decreases |ids|
  {
    if ids != [] {
      var prefix := ids[..|ids| - 1];
      var mid := FoldMeshes(st, scene, prefix, isMirrored, parent);
      FoldMeshesPreserves(st, scene, prefix, isMirrored, parent);
      AppendMeshPreserves(mid, scene.meshes[ids[|ids| - 1]], isMirrored, parent, |mid.positions|);
    }
  }

  /** Range k of a flattening belongs to the k-th mesh flattened: its parent is the mesh, its material that mesh's. */
  lemma {:induction false} FoldMeshesRange(st: Flattened, scene: ImportScene, ids: seq<nat>, isMirrored: HandednessTest,
                                           parent: RenderMesh?, k: nat)
    requires WellFormedScene(scene) && RefsIn(scene, ids) && k < |ids|
    ensures var r := FoldMeshes(st, scene, ids, isMirrored, parent);
            && |r.submeshes| == |st.submeshes| + |ids|
            && r.submeshes[|st.submeshes| + k].parentMesh == parent
            && r.submeshes[|st.submeshes| + k].materialIndex == Int32Of(scene.meshes[ids[k]].materialIndex)
            && r.submeshes[|st.submeshes| + k].indexCount == |FaceIndices(scene.meshes[ids[k]].faces)| % U32Modulus
    decreases |ids|
  {
    var prefix := ids[..|ids| - 1];
    var mid := FoldMeshes(st, scene, prefix, isMirrored, parent);
    assert |mid.submeshes| == |st.submeshes| + |prefix| by {
      if k < |prefix| {
        FoldMeshesRange(st, scene, prefix, isMirrored, parent, k);
      } else if prefix != [] {
        FoldMeshesRange(st, scene, prefix, isMirrored, parent, 0);
      }
    }
    if k < |prefix| {
      FoldMeshesRange(st, scene, prefix, isMirrored, parent, k);
      assert prefix[k] == ids[k];
    }
  }

  /**
   * After a successful load: the invariant holds, there is one range per
   * visited mesh, in walk order, each carrying that mesh's material index;
   * and when all vertices fit 16-bit indices, every index names a vertex.
   */
  lemma LoadedModelInvariant(scene: ImportScene, isMirrored: HandednessTest, parent: RenderMesh?)
    requires WellFormedScene(scene) && NodeRefsValid(scene, scene.root)
    ensures RefsIn(scene, PreOrder(scene.root))
    ensures var ids := PreOrder(scene.root);
            var r := FoldMeshes(EmptyFlattened, scene, ids, isMirrored, parent);
            && FlatInvariant(r)
            && |r.submeshes| == |ids|
            && forall k | 0 <= k < |ids| ::
                 r.submeshes[k].parentMesh == parent
                 && r.submeshes[k].materialIndex == Int32Of(scene.meshes[ids[k]].materialIndex)
    ensures var r := FoldMeshes(EmptyFlattened, scene, PreOrder(scene.root), isMirrored, parent);
            |r.positions| <= U16Modulus ==> IndicesResolve(r)
  {
    var ids := PreOrder(scene.root);
    PreOrderRefsIn(scene, scene.root);
    FoldMeshesPreserves(EmptyFlattened, scene, ids, isMirrored, parent);
    if |FoldMeshes(EmptyFlattened, scene, ids, isMirrored, parent).positions| <= U16Modulus {
      FoldMeshesIndicesResolve(EmptyFlattened, scene, ids, isMirrored, parent);
    }
    forall k | 0 <= k < |ids|
      ensures var r := FoldMeshes(EmptyFlattened, scene, ids, isMirrored, parent);
              r.submeshes[k].parentMesh == parent
              && r.submeshes[k].materialIndex == Int32Of(scene.meshes[ids[k]].materialIndex)
    {
      FoldMeshesRange(EmptyFlattened, scene, ids, isMirrored, parent, k);
    }
  }

  /** The k-th appended index of a mesh, as written, is its face index plus the old running count, modulo 2^16. */
  lemma AsWrittenIndexBase(st: Flattened, m: ImportMesh, isMirrored: HandednessTest, parent: RenderMesh?, k: nat)
    requires WellFormedMesh(m) && k < |FaceIndices(m.faces)|
    ensures var r := ProcessMeshSpec(st, m, isMirrored, parent);
            && |r.indices| == |st.indices| + |FaceIndices(m.faces)|
            && r.indices[|st.indices| + k] == (FaceIndices(m.faces)[k] + st.indexCount) % U16Modulus
  {
    OffsetIndicesModulo(FaceIndices(m.faces), st.indexCount, k);
  }

  /**
   * With the corrected base, every appended index names the vertex its face
   * named, as long as the vertex streams fit 16-bit indices.
   */
  lemma CorrectedIndicesResolve(st: Flattened, m: ImportMesh, isMirrored: HandednessTest, parent: RenderMesh?, k: nat)
    requires WellFormedMesh(m) && k < |FaceIndices(m.faces)|
    requires |st.positions| + |m.vertices| <= U16Modulus
    ensures var r := ProcessMeshCorrected(st, m, isMirrored, parent);
            var i := r.indices[|st.indices| + k];
            && i < |r.positions| && FaceIndices(m.faces)[k] < |m.vertices|
            && r.positions[i] == VertexPosition(m.vertices[FaceIndices(m.faces)[k]])
  {
    var raw := FaceIndices(m.faces);
    FaceIndicesBounded(m, |m.faces|);
    assert m.faces[..|m.faces|] == m.faces;
    OffsetIndicesModulo(raw, |st.positions|, k);
    var r := ProcessMeshCorrected(st, m, isMirrored, parent);
    assert r.indices[|st.indices| + k] == OffsetIndices(raw, |st.positions|)[k];
    assert raw[k] + |st.positions| < U16Modulus;
    assert r.indices[|st.indices| + k] == raw[k] + |st.positions|;
    assert r.positions == st.positions + PositionsOf(m);
    assert r.positions[raw[k] + |st.positions|] == PositionsOf(m)[raw[k]];
  }

  /** Every index names a vertex of the streams. */
  ghost predicate IndicesResolve(st: Flattened) {
    forall k | 0 <= k < |st.indices| :: st.indices[k] < |st.positions|
  }

  /** With the corrected base, appending a mesh keeps every index in range while the vertices fit 16-bit indices. */
  lemma CorrectedKeepsIndicesInRange(st: Flattened, m: ImportMesh, isMirrored: HandednessTest, parent: RenderMesh?)
    requires WellFormedMesh(m) && IndicesResolve(st) && |st.positions| + |m.vertices| <= U16Modulus
    ensures IndicesResolve(ProcessMeshCorrected(st, m, isMirrored, parent))
  {
    var r := ProcessMeshCorrected(st, m, isMirrored, parent);
    forall k | 0 <= k < |r.indices|
      ensures r.indices[k] < |r.positions|
    {
      if k >= |st.indices| {
        CorrectedIndicesResolve(st, m, isMirrored, parent, k - |st.indices|);
      } else {
        assert r.indices[k] == st.indices[k];
      }
    }
  }

  /**
   * A whole flattening with the corrected base: if the vertex streams end up
   * within reach of 16-bit indices, every index names a vertex.
   */
  lemma {:induction false} FoldMeshesIndicesResolve(st: Flattened, scene: ImportScene, ids: seq<nat>,
                                                    isMirrored: HandednessTest, parent: RenderMesh?)
    requires WellFormedScene(scene) && RefsIn(scene, ids) && IndicesResolve(st)
    requires |FoldMeshes(st, scene, ids, isMirrored, parent).positions| <= U16Modulus
    ensures IndicesResolve(FoldMeshes(st, scene, ids, isMirrored, parent))
    decreases |ids|
  {
    if ids != [] {
      var prefix := ids[..|ids| - 1];
      var mid := FoldMeshes(st, scene, prefix, isMirrored, parent);
      var m := scene.meshes[ids[|ids| - 1]];
      assert |FoldMeshes(st, scene, ids, isMirrored, parent).positions| == |mid.positions| + |m.vertices|;
      FoldMeshesIndicesResolve(st, scene, prefix, isMirrored, parent);
      CorrectedKeepsIndicesInRange(mid, m, isMirrored, parent);
    }
  }

  /**
   * When every mesh has exactly one index per vertex (the importer's
   * unshared-vertex layout), the index count and the vertex count stay equal
   * and the code as written computes the corrected result.
   */
  lemma AsWrittenAgreesOnUnsharedVertices(st: Flattened, m: ImportMesh, isMirrored: HandednessTest, parent: RenderMesh?)
    requires WellFormedMesh(m) && |FaceIndices(m.faces)| == |m.vertices|
    requires st.indexCount == |st.positions| % U32Modulus
    ensures ProcessMeshSpec(st, m, isMirrored, parent) == ProcessMeshCorrected(st, m, isMirrored, parent)
    ensures var r := ProcessMeshSpec(st, m, isMirrored, parent);
            r.indexCount == |r.positions| % U32Modulus
  {
    var raw := FaceIndices(m.faces);
    forall k | 0 <= k < |raw|
      ensures OffsetIndices(raw, st.indexCount)[k] == OffsetIndices(raw, |st.positions|)[k]
    {
      ModAdd(raw[k], |st.positions|);
      assert (raw[k] + st.indexCount) % U32Modulus == (raw[k] + |st.positions|) % U32Modulus by {
        ModAdd(|st.positions|, raw[k]);
      }
    }
    assert OffsetIndices(raw, st.indexCount) == OffsetIndices(raw, |st.positions|);
    ModAdd(|st.positions|, |raw|);
  }

  /** A mesh of four vertices and two triangles. */
  const QuadMesh: ImportMesh :=
    var v := Vector3(0.0, 0.0, 0.0);
    ImportMesh([v, v, v, v], [v, v, v, v], [v, v, v, v], [v, v, v, v], None,
               [ImportFace([0, 1, 2]), ImportFace([0, 2, 3])], 0)

  /** A mesh of three vertices and one triangle. */
  const TriangleMesh: ImportMesh :=
    var v := Vector3(0.0, 0.0, 0.0);
    ImportMesh([v, v, v], [v, v, v], [v, v, v], [v, v, v], None, [ImportFace([0, 1, 2])], 0)

  lemma ExampleMeshes()
    ensures WellFormedMesh(QuadMesh) && WellFormedMesh(TriangleMesh)
    ensures FaceIndices(QuadMesh.faces) == [0, 1, 2, 0, 2, 3]
    ensures FaceIndices(TriangleMesh.faces) == [0, 1, 2]
  {
    assert QuadMesh.faces[..1] == [ImportFace([0, 1, 2])];
    assert FaceIndices(QuadMesh.faces[..1]) == [0, 1, 2];
    assert TriangleMesh.faces[..0] == [];
  }

  /**
   * The index base as written goes wrong as soon as a mesh shares vertices:
   * after a quad (4 vertices, 6 indices) the triangle's indices come out as
   * 6, 7, 8, but its vertices sit at 4, 5, 6 and the vertex stream has only 7
   * entries.
   */
  lemma IndexBaseCounterexample(isMirrored: HandednessTest, parent: RenderMesh?)
    ensures WellFormedMesh(QuadMesh) && WellFormedMesh(TriangleMesh)
    ensures var asWritten := ProcessMeshSpec(ProcessMeshSpec(EmptyFlattened, QuadMesh, isMirrored, parent),
                                             TriangleMesh, isMirrored, parent);
            && |asWritten.positions| == 7
            && asWritten.indices[6..] == [6, 7, 8]
            && asWritten.indices[8] >= |asWritten.positions|
  {
    ExampleMeshes();
    var a1 := ProcessMeshSpec(EmptyFlattened, QuadMesh, isMirrored, parent);
    assert a1.indexCount == 6 && |a1.indices| == 6 && |a1.positions| == 4;
    var a2 := ProcessMeshSpec(a1, TriangleMesh, isMirrored, parent);
    assert a2.indices[6..] == OffsetIndices([0, 1, 2], 6);
    OffsetTriangle(6);
  }

  /** On the same two meshes the corrected base gives the triangle's indices 4, 5, 6. */
  lemma IndexBaseCorrectedExample(isMirrored: HandednessTest, parent: RenderMesh?)
    ensures WellFormedMesh(QuadMesh) && WellFormedMesh(TriangleMesh)
    ensures var corrected := ProcessMeshCorrected(ProcessMeshCorrected(EmptyFlattened, QuadMesh, isMirrored, parent),
                                                  TriangleMesh, isMirrored, parent);
            && |corrected.positions| == 7
            && corrected.indices[6..] == [4, 5, 6]
  {
    ExampleMeshes();
    var c1 := ProcessMeshCorrected(EmptyFlattened, QuadMesh, isMirrored, parent);
    assert |c1.indices| == 6 && |c1.positions| == 4;
    var c2 := ProcessMeshCorrected(c1, TriangleMesh, isMirrored, parent);
    assert c2.indices[6..] == OffsetIndices([0, 1, 2], 4);
    OffsetTriangle(4);
  }

  lemma OffsetTriangle(base: nat)
    requires base + 2 < U16Modulus
    ensures OffsetIndices([0, 1, 2], base) == [base, base + 1, base + 2]
  {
    var raw: seq<nat> := [0, 1, 2];
    var r := OffsetIndices(raw, base);
    forall k | 0 <= k < 3
      ensures r[k] == base + k
    {
      OffsetIndicesModulo(raw, base, k);
      assert raw[k] == k;
      assert (k + base) % U16Modulus == k + base;
    }
    assert r == [base, base + 1, base + 2];
  }

  /** The vertex loop of processMesh: one position, normal and texcoord entry per imported vertex. */
  method AppendVertices(mesh: RenderMesh, m: ImportMesh, isMirrored: HandednessTest)
    requires WellFormedMesh(m)
    modifies mesh`positions, mesh`normals, mesh`texcoords
    ensures mesh.positions == old(mesh.positions) + PositionsOf(m)
    ensures mesh.normals == old(mesh.normals) + NormalsOf(m, isMirrored)
    ensures mesh.texcoords == old(mesh.texcoords) + TexcoordsOf(m)
  {
    var i := 0;
    while i < |m.vertices|
      invariant 0 <= i <= |m.vertices|
      invariant mesh.positions == old(mesh.positions) + PositionsOf(m)[..i]
      invariant mesh.normals == old(mesh.normals) + NormalsOf(m, isMirrored)[..i]
      invariant mesh.texcoords == old(mesh.texcoords) + TexcoordsOf(m)[..i]
    {
      var t := m.tangents[i];
      var normal := VertexNormal(m.normals[i], Vector4(t.x, t.y, t.z, 1.0));
      if isMirrored(normal.normal, t, m.bitangents[i]) {
        normal := normal.(tangent := normal.tangent.(w := -1.0));
      } else {
        normal := normal.(tangent := normal.tangent.(w := 1.0));
      }
      var texcoord := VertexTexcoord(Vector2Zero);
      if m.texcoords.Some? {
        texcoord := VertexTexcoord(Vector2(m.texcoords.value[i].x, m.texcoords.value[i].y));
      }
      mesh.positions := mesh.positions + [VertexPosition(m.vertices[i])];
      mesh.normals := mesh.normals + [normal];
      mesh.texcoords := mesh.texcoords + [texcoord];
      assert PositionsOf(m)[..i + 1] == PositionsOf(m)[..i] + [VertexPosition(m.vertices[i])];
      assert NormalsOf(m, isMirrored)[..i + 1] == NormalsOf(m, isMirrored)[..i] + [normal];
      assert TexcoordsOf(m)[..i + 1] == TexcoordsOf(m)[..i] + [texcoord];
      i := i + 1;
    }
    assert PositionsOf(m)[..i] == PositionsOf(m) && NormalsOf(m, isMirrored)[..i] == NormalsOf(m, isMirrored);
    assert TexcoordsOf(m)[..i] == TexcoordsOf(m);
  }

  /**
   * The index loop of processMesh for one face: each index plus `base`, in
   * 32 bits, narrowed to 16; the 32-bit counter goes up by one per index.
   */
  method AppendFace(mesh: RenderMesh, face: ImportFace, base: nat, count0: nat) returns (count: nat)
    modifies mesh`indices
    ensures mesh.indices == old(mesh.indices) + OffsetIndices(face.indices, base)
    ensures count == (count0 + |face.indices|) % U32Modulus
  {
    count := count0 % U32Modulus;
    var j := 0;
    while j < |face.indices|
      invariant 0 <= j <= |face.indices|
      invariant mesh.indices == old(mesh.indices) + OffsetIndices(face.indices[..j], base)
      invariant count == (count0 + j) % U32Modulus
    {
      mesh.indices := mesh.indices + [(face.indices[j] + base) % U32Modulus % U16Modulus];
      assert OffsetIndices(face.indices[..j + 1], base)
             == OffsetIndices(face.indices[..j], base) + [(face.indices[j] + base) % U32Modulus % U16Modulus];
      ModAdd(count0 + j, 1);
      count := (count + 1) % U32Modulus;
      j := j + 1;
    }
    assert face.indices[..j] == face.indices;
  }

  lemma OffsetIndicesAppend(a: seq<nat>, b: seq<nat>, base: nat)
    ensures OffsetIndices(a + b, base) == OffsetIndices(a, base) + OffsetIndices(b, base)
  {
    var l, r := OffsetIndices(a + b, base), OffsetIndices(a, base) + OffsetIndices(b, base);
    forall k | 0 <= k < |l|
      ensures l[k] == r[k]
    {
      if k >= |a| {
        assert (a + b)[k] == b[k - |a|];
      }
    }
  }

  /**
   * The face loop of processMesh: every face's indices in order, offset by
   * `base`; the count of indices appended, as the 32-bit counter holds it.
   */
  method AppendIndices(mesh: RenderMesh, faces: seq<ImportFace>, base: nat) returns (count: nat)
    modifies mesh`indices
    ensures mesh.indices == old(mesh.indices) + OffsetIndices(FaceIndices(faces), base)
    ensures count == |FaceIndices(faces)| % U32Modulus
  {
    count := 0;
    var f := 0;
    while f < |faces|
      invariant 0 <= f <= |faces|
      invariant mesh.indices == old(mesh.indices) + OffsetIndices(FaceIndices(faces[..f]), base)
      invariant count == |FaceIndices(faces[..f])| % U32Modulus
    {
      var face := faces[f];
      count := AppendFace(mesh, face, base, count);
      ModAdd(|FaceIndices(faces[..f])|, |face.indices|);
      assert faces[..f + 1][..f] == faces[..f];
      assert FaceIndices(faces[..f + 1]) == FaceIndices(faces[..f]) + face.indices;
      OffsetIndicesAppend(FaceIndices(faces[..f]), face.indices, base);
      f := f + 1;
    }
    assert faces[..f] == faces;
  }

  /**
   * A scene model: the render mesh it loads into, the submesh ranges and the
   * running index count of the load, and the (never populated) texture list.
   */
  class Model {
    var name: string
    var path: string
    var indexCount: nat
    var submeshes: seq<RenderSubmesh>
    var meshLoaded: RenderMesh?
    var texturesLoaded: seq<RenderTexture.Texture2D>

    /** The count fits its 32-bit field and no texture is ever loaded. */
    ghost predicate Valid()
      reads this`indexCount, this`texturesLoaded
    {
      indexCount < U32Modulus && texturesLoaded == []
    }

    /** The flattening state held by this model and its mesh. */
    ghost function State(): Flattened
      requires meshLoaded != null
      reads this`meshLoaded, this`submeshes, this`indexCount
      reads meshLoaded`positions, meshLoaded`normals, meshLoaded`texcoords, meshLoaded`indices
    {
      Flattened(meshLoaded.positions, meshLoaded.normals, meshLoaded.texcoords, meshLoaded.indices, submeshes,
                indexCount)
    }

    constructor ()
      ensures name == [] && path == [] && indexCount == 0 && submeshes == [] && meshLoaded == null
      ensures Valid()
    {
      name, path := [], [];
      indexCount := 0;
      submeshes := [];
      meshLoaded := null;
      texturesLoaded := [];
    }

    /**
     * Loads an imported scene (None: the importer could not read the file)
     * into a fresh render mesh.
     */
    method LoadModelFile(modelPath: string, imported: Option<ImportScene>, isMirrored: HandednessTest)
      returns (loaded: bool)
      requires Valid()
      requires imported.Some? ==> WellFormedScene(imported.value) && NodeRefsValid(imported.value, imported.value.root)
      modifies this`indexCount, this`submeshes, this`meshLoaded
      ensures Valid()
      ensures loaded <==> imported.Some?
      ensures !loaded ==> indexCount == old(indexCount) && submeshes == old(submeshes) && meshLoaded == old(meshLoaded)
      ensures loaded ==>
                var scene := imported.value;
                && RefsIn(scene, PreOrder(scene.root))
                && meshLoaded != null && fresh(meshLoaded)
                && State() == FoldMeshes(EmptyFlattened, scene, PreOrder(scene.root), isMirrored, meshLoaded)
                && meshLoaded.submeshes == submeshes
                && meshLoaded.name == [] && meshLoaded.indexInDynamicBuffer == 0 && meshLoaded.OnHostOnly()
    {
      if imported.None? {
        return false;
      }
      LoadIntoNewMesh(imported.value, isMirrored);
      loaded := true;
    }

    /** A successful load: reset the count and ranges, start a fresh mesh, walk the tree into it. */
    method LoadIntoNewMesh(scene: ImportScene, isMirrored: HandednessTest)
      requires WellFormedScene(scene) && NodeRefsValid(scene, scene.root)
      modifies this`indexCount, this`submeshes, this`meshLoaded
      ensures RefsIn(scene, PreOrder(scene.root))
      ensures meshLoaded != null && fresh(meshLoaded)
      ensures State() == FoldMeshes(EmptyFlattened, scene, PreOrder(scene.root), isMirrored, meshLoaded)
      ensures meshLoaded.submeshes == submeshes && indexCount < U32Modulus
      ensures meshLoaded.name == [] && meshLoaded.indexInDynamicBuffer == 0 && meshLoaded.OnHostOnly()
    {
      indexCount := 0;
      submeshes := [];
      var mesh := new RenderMesh();
      meshLoaded := mesh;
      LoadScene(scene, isMirrored);
    }

    /** The part of a successful load after the fresh mesh is in place: walk the tree, then hand the ranges to the mesh. */
    method LoadScene(scene: ImportScene, isMirrored: HandednessTest)
      requires meshLoaded != null && State() == EmptyFlattened
      requires WellFormedScene(scene) && NodeRefsValid(scene, scene.root)
      modifies meshLoaded`positions, meshLoaded`normals, meshLoaded`texcoords, meshLoaded`indices, meshLoaded`submeshes
      modifies this`indexCount, this`submeshes
      ensures RefsIn(scene, PreOrder(scene.root))
      ensures State() == FoldMeshes(EmptyFlattened, scene, PreOrder(scene.root), isMirrored, meshLoaded)
      ensures meshLoaded.submeshes == submeshes && indexCount < U32Modulus
    {
      ProcessModelNode(scene, scene.root, isMirrored);
      ghost var result := State();
      FoldMeshesPreserves(EmptyFlattened, scene, PreOrder(scene.root), isMirrored, meshLoaded);
      meshLoaded.submeshes := submeshes;
      assert State() == result;
    }

    /** Processes a node's own meshes in order, then its children's subtrees in order. */
    method ProcessModelNode(scene: ImportScene, node: ImportNode, isMirrored: HandednessTest)
      requires meshLoaded != null && WellFormedScene(scene) && NodeRefsValid(scene, node)
      modifies meshLoaded`positions, meshLoaded`normals, meshLoaded`texcoords, meshLoaded`indices
      modifies this`indexCount, this`submeshes
      ensures RefsIn(scene, PreOrder(node))
      ensures State() == FoldMeshes(old(State()), scene, PreOrder(node), isMirrored, meshLoaded)
      decreases node, 1
    {
      PreOrderRefsIn(scene, node);
      ghost var start := State();
      ProcessMeshes(scene, node.meshes, isMirrored);
      ProcessChildren(scene, node.children, isMirrored);
      PreOrderListRefsIn(scene, node.children);
      FoldMeshesAppend(start, scene, node.meshes, PreOrderList(node.children), isMirrored, meshLoaded);
    }

    /** The first loop of processModelNode: the node's meshes, by their indices into the scene, in order. */
    method ProcessMeshes(scene: ImportScene, ids: seq<nat>, isMirrored: HandednessTest)
      requires meshLoaded != null && WellFormedScene(scene) && RefsIn(scene, ids)
      modifies meshLoaded`positions, meshLoaded`normals, meshLoaded`texcoords, meshLoaded`indices
      modifies this`indexCount, this`submeshes
      ensures State() == FoldMeshes(old(State()), scene, ids, isMirrored, meshLoaded)
    {
      var i := 0;
      while i < |ids|
        invariant 0 <= i <= |ids|
        invariant RefsIn(scene, ids[..i])
        invariant State() == FoldMeshes(old(State()), scene, ids[..i], isMirrored, meshLoaded)
      {
        ghost var before := State();
        ProcessMesh(scene.meshes[ids[i]], isMirrored);
        assert ids[..i + 1][..i] == ids[..i];
        assert State() == ProcessMeshCorrected(before, scene.meshes[ids[i]], isMirrored, meshLoaded);
        i := i + 1;
      }
      assert ids[..i] == ids;
    }

    /** The second loop of processModelNode: each child's subtree, in order. */
    method ProcessChildren(scene: ImportScene, children: seq<ImportNode>, isMirrored: HandednessTest)
      requires meshLoaded != null && WellFormedScene(scene)
      requires forall c | 0 <= c < |children| :: NodeRefsValid(scene, children[c])
      modifies meshLoaded`positions, meshLoaded`normals, meshLoaded`texcoords, meshLoaded`indices
      modifies this`indexCount, this`submeshes
      ensures RefsIn(scene, PreOrderList(children))
      ensures State() == FoldMeshes(old(State()), scene, PreOrderList(children), isMirrored, meshLoaded)
      decreases children, 0
    {
      var c := 0;
      assert children[..0] == [];
      while c < |children|
        invariant 0 <= c <= |children|
        invariant RefsIn(scene, PreOrderList(children[..c]))
        invariant State() == FoldMeshes(old(State()), scene, PreOrderList(children[..c]), isMirrored, meshLoaded)
      {
        ProcessModelNode(scene, children[c], isMirrored);
        PreOrderListSnoc(children, c);
        FoldMeshesAppend(old(State()), scene, PreOrderList(children[..c]), PreOrder(children[c]), isMirrored,
                         meshLoaded);
        c := c + 1;
      }
      assert children[..c] == children;
      PreOrderListRefsIn(scene, children);
    }

    /**
     * Appends one imported mesh: its vertices to the three streams, its face
     * indices offset by the number of vertices already in the streams (the
     * corrected base, see ProcessMeshCorrected) to the index stream, and one
     * submesh range starting at the running index count.
     */
    method ProcessMesh(m: ImportMesh, isMirrored: HandednessTest)
      requires meshLoaded != null && WellFormedMesh(m)
      modifies meshLoaded`positions, meshLoaded`normals, meshLoaded`texcoords, meshLoaded`indices
      modifies this`indexCount, this`submeshes
      ensures State() == ProcessMeshCorrected(old(State()), m, isMirrored, meshLoaded)
    {
      var mesh: RenderMesh := meshLoaded;
      var base := |mesh.positions|;
      AppendVertices(mesh, m, isMirrored);
      var count := AppendIndices(mesh, m.faces, base);
      var submesh := RenderSubmesh(count, indexCount, 0, Int32Of(m.materialIndex), mesh);
      indexCount := (indexCount + count) % U32Modulus;
      submeshes := submeshes + [submesh];
    }

    /** Stores the dynamic-buffer slot into the loaded mesh's 16-bit field, which keeps the low 16 bits. */
    method SetMeshIndex(index: nat)
      requires meshLoaded != null && index < U32Modulus
      modifies meshLoaded`indexInDynamicBuffer
      ensures meshLoaded.indexInDynamicBuffer == index % U16Modulus
    {
      meshLoaded.indexInDynamicBuffer := index % U16Modulus;
    }

    method GetSubmeshes() returns (r: seq<RenderSubmesh>)
      ensures r == submeshes
    {
      r := submeshes;
    }

    /** Nothing in the model ever adds a texture, so the list is always empty. */
    method GetTextures() returns (r: seq<RenderTexture.Texture2D>)
      requires Valid()
      ensures r == [] && r == texturesLoaded
    {
      r := texturesLoaded;
    }
  }
}
