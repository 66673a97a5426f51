/**
 * The GPU-facing mesh: the three per-vertex structs, the vertex-input binding
 * and attribute tables built from their sizes and field offsets, and the
 * defaults of a submesh and of a mesh.
 */
module MeshLayout {
  import opened Vk

  /** The math library's vectors; their float components are reals here. */
  datatype Vector2 = Vector2(x: real, y: real)
  datatype Vector3 = Vector3(x: real, y: real, z: real)
  datatype Vector4 = Vector4(x: real, y: real, z: real, w: real)

  const Vector2Zero: Vector2 := Vector2(0.0, 0.0)

  /** One entry of each vertex stream. */
  datatype VertexPosition = VertexPosition(position: Vector3)
  datatype VertexNormal = VertexNormal(normal: Vector3, tangent: Vector4)
  datatype VertexTexcoord = VertexTexcoord(texCoord: Vector2)

  /** A member of a vertex struct: a vector of 2, 3 or 4 single-precision floats. */
  datatype FieldType = Float2 | Float3 | Float4

  const FloatBytes: nat := 4

  function FieldComponents(t: FieldType): nat {
    match t
    case Float2 => 2
    case Float3 => 3
    case Float4 => 4
  }

  function FieldBytes(t: FieldType): nat {
    FieldComponents(t) * FloatBytes
  }

  /** The three vertex structs, each one per stream, by their member lists. */
  datatype VertexStruct = PositionStruct | NormalStruct | TexcoordStruct

  function Members(s: VertexStruct): seq<FieldType> {
    match s
    case PositionStruct => [Float3]
    case NormalStruct => [Float3, Float4]
    case TexcoordStruct => [Float2]
  }

  function SizeOfFields(fields: seq<FieldType>): nat {
    if fields == [] then 0 else SizeOfFields(fields[..|fields| - 1]) + FieldBytes(fields[|fields| - 1])
  }

  /**
   * offsetof: members are all 4-byte floats, so each starts right after the
   * previous one, with no padding.
   */
  function OffsetOf(s: VertexStruct, member: nat): nat
    requires member < |Members(s)|
  {
    SizeOfFields(Members(s)[..member])
  }

  /** sizeof: the members laid out back to back. */
  function SizeOf(s: VertexStruct): nat {
    SizeOfFields(Members(s))
  }

  lemma StructSizes()
    ensures SizeOf(PositionStruct) == 12 && SizeOf(NormalStruct) == 28 && SizeOf(TexcoordStruct) == 8
    ensures OffsetOf(NormalStruct, 0) == 0 && OffsetOf(NormalStruct, 1) == 12
  {
    assert Members(NormalStruct)[..1] == [Float3];
    assert [Float3, Float4][..1] == [Float3];
  }

  datatype VertexInputRate = PerVertex | PerInstance

  datatype BindingDescription = BindingDescription(binding: nat, stride: nat, inputRate: VertexInputRate)

  datatype AttributeDescription = AttributeDescription(location: nat, binding: nat, format: Format, offset: nat)

  /** The struct the vertex stream of each mesh binding carries. */
  const StreamStructs: seq<VertexStruct> := [PositionStruct, NormalStruct, TexcoordStruct]

  /** One binding per stream: position, normal, texcoord. */
  function MeshVertexInputBindings(): seq<BindingDescription> {
    [ BindingDescription(0, SizeOf(PositionStruct), PerVertex),
      BindingDescription(1, SizeOf(NormalStruct), PerVertex),
      BindingDescription(2, SizeOf(TexcoordStruct), PerVertex) ]
  }

  /** Position, normal, tangent and texcoord. */
  function MeshVertexInputAttributes(): seq<AttributeDescription> {
    [ AttributeDescription(0, 0, R32G32B32Sfloat, OffsetOf(PositionStruct, 0)),
      AttributeDescription(1, 1, R32G32B32Sfloat, OffsetOf(NormalStruct, 0)),
      AttributeDescription(2, 1, R32G32B32A32Sfloat, OffsetOf(NormalStruct, 1)),
      AttributeDescription(3, 2, R32G32Sfloat, OffsetOf(TexcoordStruct, 0)) ]
  }

  /** The light pass reads positions only. */
  function LightVertexInputBindings(): seq<BindingDescription> {
    [BindingDescription(0, SizeOf(PositionStruct), PerVertex)]
  }

  function LightVertexInputAttributes(): seq<AttributeDescription> {
    [AttributeDescription(0, 0, R32G32B32Sfloat, OffsetOf(PositionStruct, 0))]
  }

  /** The binding a table entry names, if the table has it. */
  ghost predicate HasBinding(bindings: seq<BindingDescription>, binding: nat) {
    exists k | 0 <= k < |bindings| :: bindings[k].binding == binding
  }

  /**
   * An attribute reads member `m` of the struct its binding carries exactly
   * when it starts at that member's offset, and its format then has the
   * member's component count and 4-byte components, and ends inside the stride.
   */
  ghost predicate ReadsMember(a: AttributeDescription, bindings: seq<BindingDescription>, structs: seq<VertexStruct>)
    requires |bindings| == |structs|
  {
    a.binding < |bindings| && bindings[a.binding].binding == a.binding
    && var s := structs[a.binding];
       exists m | 0 <= m < |Members(s)| ::
         && a.offset == OffsetOf(s, m)
         && ComponentCount(a.format) == FieldComponents(Members(s)[m])
         && ComponentBytes(a.format) == FloatBytes
         && a.offset + ComponentCount(a.format) * ComponentBytes(a.format) <= bindings[a.binding].stride
  }

  /** Binding i of the mesh table is binding number i, per vertex, striding over stream i's struct. */
  lemma MeshBindingsWellFormed()
    ensures var b := MeshVertexInputBindings();
            && |b| == 3
            && forall i | 0 <= i < 3 :: b[i].binding == i && b[i].inputRate == PerVertex
                                       && b[i].stride == SizeOf(StreamStructs[i])
  {
  }

  /**
   * The mesh attribute table: four attributes at locations 0..3 on bindings
   * 0, 1, 1, 2; every attribute's binding is in the binding table, and every
   * attribute reads one member of that binding's struct with a matching format.
   */
  lemma MeshAttributesConsistent()
    ensures var a := MeshVertexInputAttributes();
            var b := MeshVertexInputBindings();
            && |a| == 4
            && (forall i | 0 <= i < 4 :: a[i].location == i)
            && [a[0].binding, a[1].binding, a[2].binding, a[3].binding] == [0, 1, 1, 2]
            && (forall i | 0 <= i < 4 :: HasBinding(b, a[i].binding))
            && (forall i | 0 <= i < 4 :: ReadsMember(a[i], b, StreamStructs))
  {
    var a := MeshVertexInputAttributes();
    var b := MeshVertexInputBindings();
    StructSizes();
    assert Members(PositionStruct)[..0] == [] && Members(TexcoordStruct)[..0] == [];
    assert Members(NormalStruct)[..0] == [];
    forall i | 0 <= i < 4
      ensures HasBinding(b, a[i].binding)
    {
      assert b[a[i].binding].binding == a[i].binding;
    }
    assert ReadsMember(a[0], b, StreamStructs) by { assert a[0].offset == OffsetOf(PositionStruct, 0); }
    assert ReadsMember(a[1], b, StreamStructs) by { assert a[1].offset == OffsetOf(NormalStruct, 0); }
    assert ReadsMember(a[2], b, StreamStructs) by { assert a[2].offset == OffsetOf(NormalStruct, 1); }
    assert ReadsMember(a[3], b, StreamStructs) by { assert a[3].offset == OffsetOf(TexcoordStruct, 0); }
  }

  /** The light tables are the first entries of the mesh tables, and are consistent on their own. */
  lemma LightTablesArePositionOnly()
    ensures LightVertexInputBindings() == MeshVertexInputBindings()[..1]
    ensures LightVertexInputAttributes() == MeshVertexInputAttributes()[..1]
    ensures ReadsMember(LightVertexInputAttributes()[0], LightVertexInputBindings(), [PositionStruct])
  {
    StructSizes();
    assert Members(PositionStruct)[..0] == [];
    var a := LightVertexInputAttributes()[0];
    assert a.offset == OffsetOf(PositionStruct, 0);
  }

  /** One draw range of a mesh's index stream; the parent is a non-owning reference. */
  datatype RenderSubmesh = RenderSubmesh(indexCount: nat, indexOffset: nat, vertexOffset: nat, materialIndex: int,
                                         parentMesh: RenderMesh?)

  /** A submesh as default-initialised: an empty range, no material, no parent. */
  function NewRenderSubmesh(): (s: RenderSubmesh)
    ensures s.indexCount == 0 && s.indexOffset == 0 && s.vertexOffset == 0
    ensures s.materialIndex == -1 && s.parentMesh == null
  {
    RenderSubmesh(0, 0, 0, -1, null)
  }

  /**
   * The CPU copy of a mesh: three parallel vertex streams, a 16-bit index
   * stream, the submesh ranges, the slot in the dynamic uniform buffer and the
   * device buffers, which stay null until the mesh is uploaded.
   */
  class RenderMesh {
    var name: string
    var positions: seq<VertexPosition>
    var normals: seq<VertexNormal>
    var texcoords: seq<VertexTexcoord>
    var indices: seq<U16>
    var submeshes: seq<RenderSubmesh>
    var indexInDynamicBuffer: U16
    var positionBuffer: Handle
    var normalBuffer: Handle
    var texcoordBuffer: Handle
    var positionBufferMemory: Handle
    var normalBufferMemory: Handle
    var texcoordBufferMemory: Handle
    var indexBuffer: Handle
    var indexBufferMemory: Handle

    /** No device buffer has been created yet. */
    ghost predicate OnHostOnly()
      reads this`positionBuffer, this`normalBuffer, this`texcoordBuffer
      reads this`positionBufferMemory, this`normalBufferMemory, this`texcoordBufferMemory
      reads this`indexBuffer, this`indexBufferMemory
    {
      && positionBuffer == NullHandle && normalBuffer == NullHandle && texcoordBuffer == NullHandle
      && positionBufferMemory == NullHandle && normalBufferMemory == NullHandle && texcoordBufferMemory == NullHandle
      && indexBuffer == NullHandle && indexBufferMemory == NullHandle
    }

    /** The member initialisers: empty streams, slot 0, null device buffers. */
    constructor ()
      ensures name == [] && positions == [] && normals == [] && texcoords == [] && indices == [] && submeshes == []
      ensures indexInDynamicBuffer == 0
      ensures OnHostOnly()
    {
      name := [];
      positions, normals, texcoords := [], [], [];
      indices := [];
      submeshes := [];
      indexInDynamicBuffer := 0;
      positionBuffer, normalBuffer, texcoordBuffer := NullHandle, NullHandle, NullHandle;
      positionBufferMemory, normalBufferMemory, texcoordBufferMemory := NullHandle, NullHandle, NullHandle;
      indexBuffer, indexBufferMemory := NullHandle, NullHandle;
    }
  }
}
