/** The mesh that `create_mesh_from_obj` (common/lib/io/format/obj.cpp) builds from the
    flattened OBJ streams: one interleaved 32-byte vertex per face-vertex, a trivial
    index buffer and a fixed attribute layout. Module Obj builds it with loops; this
    module states what it is. */
module ObjMesh {
  import opened CoreFormats
  import opened ObjScan
  import opened Arith

  /** `mesh::attribute::semantic_type`. */
  datatype Semantic = Position | Texcoord | Normal

  /** `mesh::attribute`: what a vertex field means, its format and its byte offset. */
  datatype Attribute = Attribute(semantic: Semantic, format: Format, offset: nat)

  /** The vertex buffer: its byte stride, its byte size, and its contents as 4-byte
      float cells. */
  datatype VertexBuffer = VertexBuffer(stride: nat, size: nat, cells: seq<Value>)

  /** The index buffer: its format, its byte size and its index values. */
  datatype IndexBuffer = IndexBuffer(format: Format, size: nat, indices: seq<nat>)

  datatype Mesh = Mesh(topology: Topology, vertexBuffer: VertexBuffer, indexBuffer: IndexBuffer,
                       attributes: seq<Attribute>)

  /** The bytes of one float. */
  const FLOAT_BYTES: nat := 4

  /** The attribute list, each offset the previous one plus the stride of its format. */
  function MeshAttributes(): seq<Attribute> {
    var texcoordOffset := GetStrideFromFormat(R32G32B32_FLOAT);
    [Attribute(Position, R32G32B32_FLOAT, 0),
     Attribute(Texcoord, R32G32_FLOAT, texcoordOffset),
     Attribute(Normal, R32G32B32_FLOAT, texcoordOffset + GetStrideFromFormat(R32G32_FLOAT))]
  }

  /** `vertexByteStride`: the end of the last attribute. */
  function VertexByteStride(): nat {
    MeshAttributes()[2].offset + GetStrideFromFormat(R32G32B32_FLOAT)
  }

  /** Float cells per vertex. */
  function CellsPerVertex(): nat {
    VertexByteStride() / FLOAT_BYTES
  }

  /** Position @0 as three floats, texcoord @12 as two, normal @20 as three, 32 bytes in
      all: the fields tile the vertex with no gap. */
  lemma VertexLayout()
    ensures MeshAttributes() == [Attribute(Position, R32G32B32_FLOAT, 0),
                                 Attribute(Texcoord, R32G32_FLOAT, 12),
                                 Attribute(Normal, R32G32B32_FLOAT, 20)]
    ensures forall i | 0 <= i < 2 ::
              MeshAttributes()[i].offset + GetStrideFromFormat(MeshAttributes()[i].format) == MeshAttributes()[i + 1].offset
    ensures VertexByteStride() == 32 && CellsPerVertex() == 8
  {
  }

  /** 16-bit indices while every vertex number fits in them, 32-bit beyond. */
  function IndexFormatFor(vertexCount: nat): (f: Format)
    ensures f == R16_UINT || f == R32_UINT
  {
    if vertexCount <= 0xFFFF then R16_UINT else R32_UINT
  }

  /** Every emitted index `k < vertexCount` fits the width of the chosen format, so
      the 16-bit store `static_cast<std::uint16_t>(k)` never truncates. */
  lemma IndexFormatHoldsIndices(vertexCount: nat, k: nat)
    requires k < vertexCount < 0x1_0000_0000
    ensures IndexFormatFor(vertexCount) == R16_UINT <==> vertexCount <= 0xFFFF
    ensures k < BytePower(GetStrideFromFormat(IndexFormatFor(vertexCount)))
    ensures IndexFormatFor(vertexCount) == R16_UINT ==> k % 0x1_0000 == k
  {
    assert BytePower(2) == 256 * 256 * BytePower(0);
    assert BytePower(4) == 256 * 256 * BytePower(2);
  }

  /** `256^n`: the number of values `n` bytes hold. */
  function BytePower(n: nat): nat {
    if n == 0 then 1 else 256 * BytePower(n - 1)
  }

  /** Every face-vertex names a position and a normal record that exist, and a
      texcoord record that exists whenever the texcoord stream is not empty. The code
      does not check this: a `p//n` face-vertex (texcoord -1) in a file that has `vt`
      lines indexes out of the texcoord stream, and any index past its stream reads out
      of bounds. */
  ghost predicate IndicesInRange(positions: seq<Value>, texcoords: seq<Value>, normals: seq<Value>, indices: seq<int>) {
    |indices| % 3 == 0 &&
    forall i | 0 <= i < |indices| && i % 3 == 0 :: FaceVertexInRange(positions, texcoords, normals, indices, i)
  }

  /** The face-vertex at `indices[i..i+3]` names records that exist. */
  ghost predicate FaceVertexInRange(positions: seq<Value>, texcoords: seq<Value>, normals: seq<Value>,
                                    indices: seq<int>, i: nat) {
    i + 2 < |indices| &&
    1 <= indices[i] && (indices[i] - 1) * 3 + 3 <= |positions| &&
    (|texcoords| > 0 ==> 1 <= indices[i + 1] && (indices[i + 1] - 1) * 2 + 2 <= |texcoords|) &&
    1 <= indices[i + 2] && (indices[i + 2] - 1) * 3 + 3 <= |normals|
  }

  /** Face-vertex `k` starts at `indices[3 * k]`. */
  lemma FaceVertexAt(positions: seq<Value>, texcoords: seq<Value>, normals: seq<Value>, indices: seq<int>, k: nat)
    requires IndicesInRange(positions, texcoords, normals, indices)
    requires 3 * k < |indices|
    ensures FaceVertexInRange(positions, texcoords, normals, indices, 3 * k)
  {
    MultipleMod(k, 3);
  }

  /** Cell `j` of emitted vertex `k`: three position floats, two texcoord floats (with
      `v` flipped to `1 - v` when `invertUvs` is set, both 0.0f when the stream is empty)
      and three normal floats. */
  function VertexCell(positions: seq<Value>, texcoords: seq<Value>, normals: seq<Value>, indices: seq<int>,
                      invertUvs: bool, k: nat, j: nat): Value
    requires IndicesInRange(positions, texcoords, normals, indices)
    requires 3 * k < |indices| && j < 8
  {
    var i := 3 * k;
    FaceVertexAt(positions, texcoords, normals, indices, k);
    if j < 3 then positions[(indices[i] - 1) * 3 + j]
    else if j < 5 then
      if |texcoords| > 0 then
        var t := texcoords[(indices[i + 1] - 1) * 2 + (j - 3)];
        if j == 4 && invertUvs then OneMinus(t) else t
      else Zero
    else normals[(indices[i + 2] - 1) * 3 + (j - 5)]
  }

  /** The mesh built from the flattened streams. */
  function AssembledMesh(positions: seq<Value>, texcoords: seq<Value>, normals: seq<Value>, indices: seq<int>,
                         invertUvs: bool): Mesh
    requires IndicesInRange(positions, texcoords, normals, indices)
  {
    var n := |indices| / 3;
    var indexFormat := IndexFormatFor(n);
    Mesh(TRIANGLE_LIST,
         VertexBuffer(VertexByteStride(), n * VertexByteStride(),
                      seq(8 * n, c requires 0 <= c < 8 * n =>
                        DivisionBounds(c, 8);
                        VertexCell(positions, texcoords, normals, indices, invertUvs, c / 8, c % 8))),
         IndexBuffer(indexFormat, n * GetStrideFromFormat(indexFormat), seq(n, k => k)),
         MeshAttributes())
  }

  /** With `N` face-vertices: a triangle list, `N` vertices of 32 bytes, indices
      `0..N-1` in r16_uint exactly when `N <= 0xFFFF` and r32_uint otherwise, and the
      attribute layout of `VertexLayout`. */
  lemma MeshShape(positions: seq<Value>, texcoords: seq<Value>, normals: seq<Value>, indices: seq<int>,
                  invertUvs: bool)
    requires IndicesInRange(positions, texcoords, normals, indices)
    ensures var n := |indices| / 3;
            var m := AssembledMesh(positions, texcoords, normals, indices, invertUvs);
            m.topology == TRIANGLE_LIST &&
            m.vertexBuffer.stride == 32 && m.vertexBuffer.size == n * 32 &&
            |m.vertexBuffer.cells| * FLOAT_BYTES == m.vertexBuffer.size &&
            (m.indexBuffer.format == R16_UINT <==> n <= 0xFFFF) &&
            (m.indexBuffer.format == R32_UINT <==> n > 0xFFFF) &&
            m.indexBuffer.size == n * (if n <= 0xFFFF then 2 else 4) &&
            |m.indexBuffer.indices| == n &&
            (forall k | 0 <= k < n :: m.indexBuffer.indices[k] == k) &&
            m.attributes[0] == Attribute(Position, R32G32B32_FLOAT, 0) &&
            m.attributes[1] == Attribute(Texcoord, R32G32_FLOAT, 12) &&
            m.attributes[2] == Attribute(Normal, R32G32B32_FLOAT, 20)
  {
    VertexLayout();
  }

  /** Cell `j` of emitted vertex `k` sits at `k * 8 + j`. */
  lemma VertexCellAt(positions: seq<Value>, texcoords: seq<Value>, normals: seq<Value>, indices: seq<int>,
                     invertUvs: bool, k: nat, j: nat)
    requires IndicesInRange(positions, texcoords, normals, indices)
    requires 3 * k < |indices| && j < 8
    ensures var cells := AssembledMesh(positions, texcoords, normals, indices, invertUvs).vertexBuffer.cells;
            8 * k + j < |cells| &&
            cells[8 * k + j] == VertexCell(positions, texcoords, normals, indices, invertUvs, k, j)
  {
    var n := |indices| / 3;
    DivModUnique(|indices|, 3, n, 0);
    MulIndexBound(k, n, 8, j);
    DivModUnique(8 * k + j, 8, k, j);
  }

  /** The position of emitted vertex `k` (cells `k * 8 + 0..2`, byte offset 0) is
      position record `p_k - 1`. */
  lemma PositionSource(positions: seq<Value>, texcoords: seq<Value>, normals: seq<Value>, indices: seq<int>,
                       invertUvs: bool, k: nat)
    requires IndicesInRange(positions, texcoords, normals, indices)
    requires 3 * k < |indices|
    ensures var cells := AssembledMesh(positions, texcoords, normals, indices, invertUvs).vertexBuffer.cells;
            var p := indices[3 * k];
            8 * k + 2 < |cells| && 1 <= p && (p - 1) * 3 + 3 <= |positions| &&
            cells[8 * k] == positions[(p - 1) * 3] &&
            cells[8 * k + 1] == positions[(p - 1) * 3 + 1] &&
            cells[8 * k + 2] == positions[(p - 1) * 3 + 2]
  {
    FaceVertexAt(positions, texcoords, normals, indices, k);
    VertexCellAt(positions, texcoords, normals, indices, invertUvs, k, 0);
    VertexCellAt(positions, texcoords, normals, indices, invertUvs, k, 1);
    VertexCellAt(positions, texcoords, normals, indices, invertUvs, k, 2);
  }

  /** The texcoord of emitted vertex `k` (cells `k * 8 + 3..4`, byte offset 12) is
      texcoord record `t_k - 1`, its `v` flipped to `1 - v` under `invertUvs`, when the
      texcoord stream is not empty, and (0, 0) when it is. */
  lemma TexcoordSource(positions: seq<Value>, texcoords: seq<Value>, normals: seq<Value>, indices: seq<int>,
                       invertUvs: bool, k: nat)
    requires IndicesInRange(positions, texcoords, normals, indices)
    requires 3 * k < |indices|
    ensures var cells := AssembledMesh(positions, texcoords, normals, indices, invertUvs).vertexBuffer.cells;
            var t := indices[3 * k + 1];
            8 * k + 4 < |cells| &&
            (|texcoords| > 0 ==>
               1 <= t && (t - 1) * 2 + 2 <= |texcoords| &&
               cells[8 * k + 3] == texcoords[(t - 1) * 2] &&
               cells[8 * k + 4] == (if invertUvs then OneMinus(texcoords[(t - 1) * 2 + 1])
                                    else texcoords[(t - 1) * 2 + 1])) &&
            (|texcoords| == 0 ==> cells[8 * k + 3] == Zero && cells[8 * k + 4] == Zero)
  {
    FaceVertexAt(positions, texcoords, normals, indices, k);
    VertexCellAt(positions, texcoords, normals, indices, invertUvs, k, 3);
    VertexCellAt(positions, texcoords, normals, indices, invertUvs, k, 4);
  }

  /** The normal of emitted vertex `k` (cells `k * 8 + 5..7`, byte offset 20) is normal
      record `n_k - 1`. */
  lemma NormalSource(positions: seq<Value>, texcoords: seq<Value>, normals: seq<Value>, indices: seq<int>,
                     invertUvs: bool, k: nat)
    requires IndicesInRange(positions, texcoords, normals, indices)
    requires 3 * k < |indices|
    ensures var cells := AssembledMesh(positions, texcoords, normals, indices, invertUvs).vertexBuffer.cells;
            var n := indices[3 * k + 2];
            8 * k + 7 < |cells| && 1 <= n && (n - 1) * 3 + 3 <= |normals| &&
            cells[8 * k + 5] == normals[(n - 1) * 3] &&
            cells[8 * k + 6] == normals[(n - 1) * 3 + 1] &&
            cells[8 * k + 7] == normals[(n - 1) * 3 + 2]
  {
    FaceVertexAt(positions, texcoords, normals, indices, k);
    VertexCellAt(positions, texcoords, normals, indices, invertUvs, k, 5);
    VertexCellAt(positions, texcoords, normals, indices, invertUvs, k, 6);
    VertexCellAt(positions, texcoords, normals, indices, invertUvs, k, 7);
  }

  // ---------------------------------------------------------------------------------
  // From the records to the mesh

  /** Records of `width` slots or more. */
  ghost predicate Wide<T>(records: seq<seq<T>>, width: nat) {
    forall i | 0 <= i < |records| :: |records[i]| >= width
  }

  /** A 1-based record number `p` whose slots lie inside the flattened records names
      one of the records, and slot `j` of the flattened data is slot `j` of it. */
  lemma RecordSlot<T>(records: seq<seq<T>>, width: nat, p: int, j: nat)
    requires Wide(records, width) && j < width
    requires 1 <= p && (p - 1) * width + width <= |Coordinates(records, width)|
    ensures p <= |records|
    ensures (p - 1) * width + j < |Coordinates(records, width)|
    ensures Coordinates(records, width)[(p - 1) * width + j] == records[p - 1][j]
  {
    CoordinatesLength(records, width);
    if p > |records| {
      MulAtLeast(p - |records|, width);
    }
    CoordinatesAt(records, width, p - 1, j);
  }

  /** Slot `j` of face-vertex record `k` is entry `3 * k + j` of the index stream. */
  lemma FaceSlot(fs: seq<seq<int>>, k: nat, j: nat)
    requires Wide(fs, 3) && k < |fs| && j < 3
    ensures 3 * k + j < |Coordinates(fs, 3)| && Coordinates(fs, 3)[3 * k + j] == fs[k][j]
  {
    CoordinatesAt(fs, 3, k, j);
    assert k * 3 + j == 3 * k + j;
  }
}
