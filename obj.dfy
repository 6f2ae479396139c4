/** The OBJ loader of common/lib/io/format/obj.cpp as the code runs it: two cursor
    iterators over the file text, the loops that drain them into flat vectors, and
    the loop that writes the interleaved vertex and index buffers. Each method is
    proved against the functions of ObjScan and ObjMesh. */
module Obj {
  import opened CoreFormats
  import opened ObjScan
  import opened ObjMesh
  import opened Arith

  /** Advances over the characters of class `cls` from `pos` (a `while` loop of the
      scanners). */
  method SkipClass(s: string, pos: nat, cls: CharClass) returns (p: nat)
    requires pos <= |s|
    ensures p == Span(s, pos, cls)
  {
    p := pos;
    while p < |s| && InClass(s[p], cls)
      invariant pos <= p <= |s|
      invariant Span(s, p, cls) == Span(s, pos, cls)
      decreases |s| - p
    {
      p := p + 1;
    }
  }

  /** Appends the character at `pos` and every following character of class `cls` to
      a fresh `element` (a `do`/`while` loop of the scanners). */
  method ReadToken(s: string, pos: nat, cls: CharClass) returns (element: string, p: nat)
    requires pos < |s|
    ensures p == Span(s, pos + 1, cls) && element == s[pos..p]
  {
    element := [s[pos]];
    p := pos + 1;
    while p < |s| && InClass(s[p], cls)
      invariant pos < p <= |s| && element == s[pos..p]
      invariant Span(s, p, cls) == Span(s, pos + 1, cls)
      decreases |s| - p
    {
      element := element + [s[p]];
      p := p + 1;
    }
  }

  /** The `do { find } while (rejected)` loop of both iterators. Every occurrence of the
      marker is line-leading, so the first round already ends it. */
  method FindMarker(s: Text, d: string, startPos: nat) returns (p: nat)
    requires |d| > 0 && LineLeadingMarkers(s, d)
    ensures p == Find(s, d, startPos)
  {
    p := startPos;
    var rejected := true;
    while rejected
      invariant rejected ==> p == startPos
      invariant !rejected ==> p == Find(s, d, startPos)
      decreases rejected
    {
      p := Find(s, d, p);
      rejected := p != NPOS && p != 0 && s[p - 1] != ' ' && s[p - 1] != '\n';
    }
  }

  /** The body of `OBJVertexIterator::findElement` after the marker: two or three
      numbers into the slots of `value` (the third keeps its old value when the line
      holds two), or no record. It reads the first number here and leaves the rest
      to `ReadSecondNumber` and `ReadThirdNumber`. */
  method ReadVertexNumbers(s: Text, pos: nat, value: seq<Value>) returns (r: VertexScan)
    requires pos <= |s| && |value| == 3
    ensures r == ReadVertexRecord(s, pos, value[2])
  {
    var currentPos := SkipClass(s, pos, Gap);
    if currentPos == |s| || s[currentPos] == '\n' {
      return VertexScan(currentPos, []);
    }
    ghost var a := currentPos;
    var element;
    element, currentPos := ReadToken(s, currentPos, NumberChar);
    r := ReadSecondNumber(s, a, currentPos, value[0 := Parsed(element)]);
  }

  /** The second number, the first being `s[a..pos]`, in `value[0]`. */
  method ReadSecondNumber(s: Text, ghost a: nat, pos: nat, value: seq<Value>) returns (r: VertexScan)
    requires a < pos <= |s| && |value| == 3 && value[0] == Parsed(s[a..pos])
    ensures r == ReadVertexSecond(s, a, pos, value[2])
  {
    var currentPos := SkipClass(s, pos, Gap);
    if currentPos == |s| || s[currentPos] == '\n' {
      return VertexScan(currentPos, []);
    }
    var element;
    element, currentPos := ReadToken(s, currentPos, NumberChar);
    r := ReadThirdNumber(s, currentPos, value[1 := Parsed(element)]);
  }

  /** The optional third number, the first two being in `value[0]` and `value[1]`. */
  method ReadThirdNumber(s: Text, pos: nat, value: seq<Value>) returns (r: VertexScan)
    requires pos <= |s| && |value| == 3
    ensures r == ReadVertexThird(s, value[0], value[1], pos, value[2])
  {
    var currentValue := value;
    var currentPos := SkipClass(s, pos, Gap);
    if currentPos != |s| && s[currentPos] != '\n' {
      var element;
      element, currentPos := ReadToken(s, currentPos, NumberChar);
      currentValue := currentValue[2 := Parsed(element)];
    }
    return VertexScan(currentPos, currentValue);
  }

  /** `OBJVertexIterator`: walks the records of one coordinate stream. */
  class OBJVertexIterator {
    const source: Text
    /** The marker followed by a blank: "v ", "vt " or "vn ". */
    const delimiter: string
    var currentPos: nat
    /** Three slots, or none once the stream is exhausted. */
    var currentValue: seq<Value>

    ghost predicate Valid()
      reads this
    {
      |delimiter| >= 2 && LineLeadingMarkers(source, delimiter) &&
      (currentValue == [] || (|currentValue| == 3 && currentPos <= |source|))
    }

    /** The records still to come: the current one, then the rest of the stream. */
    ghost function Records(): (records: seq<seq<Value>>)
      reads this
      requires Valid()
      ensures forall i | 0 <= i < |records| :: |records[i]| == 3
    {
      if currentValue == [] then []
      else [currentValue] + VertexStreamFrom(source, delimiter, NextVertexStart(currentPos), currentValue[2])
    }

    /** Starts on the first record; all three slots start at 0.0f. */
    constructor (source: Text, marker: string)
      requires |marker| >= 1 && LineLeadingMarkers(source, marker + " ")
      ensures Valid() && this.source == source && delimiter == marker + " "
      ensures Records() == VertexStream(source, marker)
    {
      this.source := source;
      delimiter := marker + " ";
      currentPos := 0;
      currentValue := [Zero, Zero, Zero];
      new;
      FindElement(0);
    }

    /** `findElement`: finds the next marker at or after `startPos` and reads the
        record after it, or clears `currentValue`. */
    method FindElement(startPos: nat)
      requires Valid() && |currentValue| == 3
      modifies this
      ensures Valid()
      ensures VertexScan(currentPos, currentValue) == VertexFind(source, delimiter, startPos, old(currentValue)[2])
    {
      var p := FindMarker(source, delimiter, startPos);
      if p == NPOS {
        currentPos, currentValue := p, [];
        return;
      }
      var r := ReadVertexNumbers(source, p + 2, currentValue);
      currentPos, currentValue := r.pos, r.value;
    }

    /** `next`: resumes one character past the cursor. Only called on a record, so the
        cursor is inside the text and `currentPos + 1` does not wrap. */
    method Next()
      requires Valid() && currentValue != []
      modifies this
      ensures Valid()
      ensures VertexScan(currentPos, currentValue) == VertexFind(source, delimiter, NextVertexStart(old(currentPos)), old(currentValue)[2])
      ensures Records() == old(Records())[1..]
    {
      FindElement(if currentPos != 0 then currentPos + 1 else currentPos);
    }

    /** `current`: the record the iterator stands on, the head of what is left. */
    method Current() returns (v: seq<Value>)
      requires Valid()
      ensures v == currentValue
      ensures v == [] <==> Records() == []
      ensures v != [] ==> v == Records()[0]
    {
      v := currentValue;
    }
  }

  /** The body of `OBJIndexIterator::findElement` from the first digit of a
      face-vertex on: the position index and its '/', then `ReadTexcoordSlot`. */
  method ReadPositionIndex(s: Text, pos: nat, lineParsing: bool, value: seq<int>) returns (r: IndexScan)
    requires pos < |s| && IsDigit(s[pos]) && |value| == 3
    ensures r == ReadFaceVertex(s, pos, lineParsing)
  {
    var currentPos := SkipClass(s, pos + 1, Digit);
    var digitsEnd := currentPos;
    currentPos := currentPos + 1;
    // `at(currentPos - 1)` throws past the end of the text
    if currentPos == |s| || currentPos - 1 >= |s| || s[currentPos - 1] != '/' {
      return IndexScan(currentPos, lineParsing, []);
    }
    // `atoi` of the digits read
    r := ReadTexcoordSlot(s, currentPos, lineParsing, value[0 := DigitsValue(s, pos, digitsEnd)]);
  }

  /** The texcoord index (digits, or -1 for a second '/' at once) and its '/', then
      `ReadNormalSlot`. */
  method ReadTexcoordSlot(s: Text, pos: nat, lineParsing: bool, value: seq<int>) returns (r: IndexScan)
    requires pos < |s| && |value| == 3
    ensures r == ReadTexcoordIndex(s, value[0], pos, lineParsing)
  {
    var currentValue := value;
    var currentPos := pos;
    if IsDigit(s[currentPos]) {
      var digitsStart := currentPos;
      currentPos := SkipClass(s, currentPos + 1, Digit);
      currentValue := currentValue[1 := DigitsValue(s, digitsStart, currentPos)];
    } else if s[currentPos] == '/' {
      currentValue := currentValue[1 := -1];
    }
    currentPos := currentPos + 1;
    if currentPos - 1 >= |s| || s[currentPos - 1] != '/' {
      return IndexScan(currentPos, lineParsing, []);
    }
    r := ReadNormalSlot(s, currentPos, currentValue);
  }

  /** The normal index (digits, or -1), then the gap up to the next face-vertex of
      the line: `lineParsing` says whether one follows. */
  method ReadNormalSlot(s: Text, pos: nat, value: seq<int>) returns (r: IndexScan)
    requires pos <= |s| && |value| == 3
    ensures r == ReadNormalIndex(s, value[0], value[1], pos)
  {
    var currentValue := value;
    var currentPos := pos;
    if currentPos == |s| || !IsDigit(s[currentPos]) {
      currentValue := currentValue[2 := -1];
    } else {
      var digitsStart := currentPos;
      currentPos := SkipClass(s, currentPos + 1, Digit);
      currentValue := currentValue[2 := DigitsValue(s, digitsStart, currentPos)];
    }
    currentPos := SkipClass(s, currentPos, IndexGap);
    var lineParsing := currentPos != |s| && s[currentPos] != '\n';
    return IndexScan(currentPos, lineParsing, currentValue);
  }

  /** `OBJIndexIterator`: walks the face-vertices of the `f` lines. */
  class OBJIndexIterator {
    const source: Text
    var currentPos: nat
    /** The cursor stands on the next face-vertex of the current `f` line. */
    var lineParsing: bool
    /** Position, texcoord and normal index (-1 when absent), or none at the end. */
    var currentValue: seq<int>

    ghost predicate Valid()
      reads this
    {
      LineLeadingMarkers(source, "f ") &&
      (currentValue == [] || (|currentValue| == 3 && currentPos <= |source|))
    }

    /** The face-vertices still to come: the current one, then the rest. */
    ghost function Records(): (records: seq<seq<int>>)
      reads this
      requires Valid()
      ensures forall i | 0 <= i < |records| :: |records[i]| == 3
    {
      if currentValue == [] then [] else [currentValue] + IndexStreamFrom(source, currentPos, lineParsing)
    }

    constructor (source: Text)
      requires LineLeadingMarkers(source, "f ")
      ensures Valid() && this.source == source
      ensures Records() == IndexStream(source)
    {
      this.source := source;
      currentPos := 0;
      lineParsing := false;
      currentValue := [0, 0, 0];
      new;
      FindElement(0);
    }

    /** `findElement`: unless `lineParsing`, finds the next `f ` marker; then reads one
        `p/t/n` face-vertex, or clears `currentValue`. */
    method FindElement(startPos: nat)
      requires Valid() && startPos <= |source| && |currentValue| == 3
      modifies this
      ensures Valid()
      ensures IndexScan(currentPos, lineParsing, currentValue) == IndexFind(source, startPos, old(lineParsing))
    {
      var p := startPos;
      if !lineParsing {
        p := FindMarker(source, "f ", p);
        if p != NPOS {
          p := p + 1;
        }
      }
      if p == NPOS || p == |source| {
        currentPos, currentValue := p, [];
        return;
      }
      p := SkipClass(source, p, IndexGap);
      if p == |source| || source[p] == '\n' {
        currentPos, currentValue := p, [];
        return;
      }
      var r := ReadPositionIndex(source, p, lineParsing, currentValue);
      currentPos, lineParsing, currentValue := r.pos, r.lineParsing, r.value;
    }

    /** `next`: continues from the cursor. */
    method Next()
      requires Valid() && currentValue != []
      modifies this
      ensures Valid()
      ensures IndexScan(currentPos, lineParsing, currentValue) == IndexFind(source, old(currentPos), old(lineParsing))
      ensures Records() == old(Records())[1..]
    {
      FindElement(currentPos);
    }

    /** `current`: the face-vertex the iterator stands on, the head of what is left. */
    method Current() returns (v: seq<int>)
      requires Valid()
      ensures v == currentValue
      ensures v == [] <==> Records() == []
      ensures v != [] ==> v == Records()[0]
    {
      v := currentValue;
    }
  }

  /** The consumer loop of `create_mesh_from_obj` (`pfnThread`, run once per coordinate
      stream): pushes the first `coordSize` slots of every record until the iterator
      runs dry. */
  method CollectCoordinates(it: OBJVertexIterator, coordSize: nat) returns (data: seq<Value>)
    requires it.Valid() && coordSize <= 3
    modifies it
    ensures it.Valid() && it.Records() == []
    ensures data == Coordinates(old(it.Records()), coordSize)
  {
    data := [];
    ghost var all := it.Records();
    ghost var rest := all;
    var current := it.Current();
    while current != []
      invariant it.Valid() && current == it.currentValue && rest == it.Records()
      invariant forall i | 0 <= i < |rest| :: |rest[i]| >= coordSize
      invariant data + Coordinates(rest, coordSize) == Coordinates(all, coordSize)
      decreases |rest|
    {
      CoordinatesStep(data, rest, coordSize);
      data := PushSlots(data, current, coordSize);
      it.Next();
      rest := rest[1..];
      current := it.Current();
    }
  }

  /** The inner loop of `pfnThread`: `push_back` of slots `0..coordSize-1`. */
  method PushSlots<T>(data: seq<T>, current: seq<T>, coordSize: nat) returns (pushed: seq<T>)
    requires coordSize <= |current|
    ensures pushed == data + current[..coordSize]
  {
    pushed := data;
    var i := 0;
    while i < coordSize
      invariant 0 <= i <= coordSize && pushed == data + current[..i]
    {
      pushed := pushed + [current[i]];
      i := i + 1;
    }
  }

  /** Three `push_back`s append the triple. */
  lemma PushedTriple<T>(data: seq<T>, current: seq<T>)
    requires |current| == 3
    ensures data + [current[0]] + [current[1]] + [current[2]] == data + current[..3]
  {
  }

  /** The index loop of `create_mesh_from_obj`: pushes the three indices of every
      face-vertex. */
  method CollectIndices(it: OBJIndexIterator) returns (data: seq<int>)
    requires it.Valid()
    modifies it
    ensures it.Valid() && it.Records() == []
    ensures data == Coordinates(old(it.Records()), 3)
  {
    data := [];
    ghost var all := it.Records();
    ghost var rest := all;
    var current := it.Current();
    while current != []
      invariant it.Valid() && current == it.currentValue && rest == it.Records()
      invariant forall i | 0 <= i < |rest| :: |rest[i]| >= 3
      invariant data + Coordinates(rest, 3) == Coordinates(all, 3)
      decreases |rest|
    {
      CoordinatesStep(data, rest, 3);
      PushedTriple(data, current);
      data := data + [current[0]];
      data := data + [current[1]];
      data := data + [current[2]];
      it.Next();
      rest := rest[1..];
      current := it.Current();
    }
  }

  /** One round of the fill loop of `create_mesh_from_obj`: the eight float cells of
      the vertex of the face-vertex at `indices[i..i+3]` from `vPtr` on, advancing by
      each attribute's stride (12, 8 and 12 bytes). */
  method WriteVertex(vertexData: array<Value>, vPtr: nat, positions: seq<Value>, texcoords: seq<Value>,
                     normals: seq<Value>, indices: seq<int>, invertUvs: bool, i: nat)
    requires IndicesInRange(positions, texcoords, normals, indices)
    requires i < |indices| && i % 3 == 0 && vPtr + 8 <= vertexData.Length
    modifies vertexData
    ensures forall j | 0 <= j < 8 ::
              vertexData[vPtr + j] == VertexCell(positions, texcoords, normals, indices, invertUvs, i / 3, j)
    ensures forall c | 0 <= c < vertexData.Length && !(vPtr <= c < vPtr + 8) :: vertexData[c] == old(vertexData[c])
  {
    DivModUnique(i, 3, i / 3, 0);
    assert FaceVertexInRange(positions, texcoords, normals, indices, i);
    var p := vPtr;
    // position
    vertexData[p] := positions[(indices[i] - 1) * 3];
    vertexData[p + 1] := positions[(indices[i] - 1) * 3 + 1];
    vertexData[p + 2] := positions[(indices[i] - 1) * 3 + 2];
    p := p + GetStrideFromFormat(R32G32B32_FLOAT) / FLOAT_BYTES;
    // texcoord
    if |texcoords| > 0 {
      vertexData[p] := texcoords[(indices[i + 1] - 1) * 2];
      vertexData[p + 1] := texcoords[(indices[i + 1] - 1) * 2 + 1];
      if invertUvs {
        vertexData[p + 1] := OneMinus(vertexData[p + 1]);
      }
    } else {
      vertexData[p] := Zero;
      vertexData[p + 1] := Zero;
    }
    p := p + GetStrideFromFormat(R32G32_FLOAT) / FLOAT_BYTES;
    // normal
    vertexData[p] := normals[(indices[i + 2] - 1) * 3];
    vertexData[p + 1] := normals[(indices[i + 2] - 1) * 3 + 1];
    vertexData[p + 2] := normals[(indices[i + 2] - 1) * 3 + 2];
  }

  /** The second half of `create_mesh_from_obj`: the attribute list, the two buffers,
      and the loop that writes one vertex and one index per face-vertex. */
  method CreateMesh(positions: seq<Value>, texcoords: seq<Value>, normals: seq<Value>, indices: seq<int>,
                    invertUvs: bool) returns (m: Mesh)
    requires IndicesInRange(positions, texcoords, normals, indices)
    requires |indices| < 0x1_0000_0000
    ensures m == AssembledMesh(positions, texcoords, normals, indices, invertUvs)
  {
    var attributes := [Attribute(Position, R32G32B32_FLOAT, 0)];
    attributes := attributes + [Attribute(Texcoord, R32G32_FLOAT, GetStrideFromFormat(R32G32B32_FLOAT))];
    attributes := attributes + [Attribute(Normal, R32G32B32_FLOAT,
                                          attributes[|attributes| - 1].offset + GetStrideFromFormat(R32G32_FLOAT))];
    VertexLayout();
    var vertexByteStride := attributes[2].offset + GetStrideFromFormat(R32G32B32_FLOAT);
    var n := |indices| / 3;
    DivModUnique(|indices|, 3, n, 0);
    var indexFormat := if n <= 0xFFFF then R16_UINT else R32_UINT;
    DivModUnique(n * vertexByteStride, FLOAT_BYTES, 8 * n, 0);
    var vertexData := new Value[n * vertexByteStride / FLOAT_BYTES](_ => Zero);
    // `pIndexData` advances by the index stride: one element of the index buffer
    var indexData := new nat[n];

    var vPtr := 0;
    var iPtr := 0;
    // `std::uint32_t i`: `i + 3 <= |indices|` stays below 2^32, so it never wraps
    var i := 0;
    ghost var k := 0;
    while i < |indices|
      invariant 0 <= k <= n && i == 3 * k && vPtr == 8 * k && iPtr == k
      invariant forall v, j | 0 <= v < k && 0 <= j < 8 ::
                  vertexData[8 * v + j] == VertexCell(positions, texcoords, normals, indices, invertUvs, v, j)
      invariant forall c | 0 <= c < iPtr :: indexData[c] == c
    {
      DivModUnique(i, 3, k, 0);
      WriteVertex(vertexData, vPtr, positions, texcoords, normals, indices, invertUvs, i);
      vPtr := vPtr + vertexByteStride / FLOAT_BYTES;
      if indexFormat == R16_UINT {
        indexData[iPtr] := (i / 3) % 0x1_0000;
      } else {
        indexData[iPtr] := i / 3;
      }
      iPtr := iPtr + 1;
      i := i + 3;
      k := k + 1;
    }
    forall c | 0 <= c < 8 * n
      ensures vertexData[c] == VertexCell(positions, texcoords, normals, indices, invertUvs, c / 8, c % 8)
    {
      DivModUnique(c, 8, c / 8, c % 8);
    }
    m := Mesh(TRIANGLE_LIST,
              VertexBuffer(vertexByteStride, n * vertexByteStride, vertexData[..]),
              IndexBuffer(indexFormat, n * GetStrideFromFormat(indexFormat), indexData[..]),
              attributes);
  }

  /** Every marker the loader searches for starts a line. */
  ghost predicate WellMarked(s: Text) {
    LineLeadingMarkers(s, "v" + " ") && LineLeadingMarkers(s, "vt" + " ") &&
    LineLeadingMarkers(s, "vn" + " ") && LineLeadingMarkers(s, "f ")
  }

  /** `objVertices`, `objTexCoord`, `objNormals` and `objIndices` once the loops end. */
  function ObjPositions(s: Text): seq<Value>
    requires WellMarked(s)
  {
    Coordinates(VertexStream(s, "v"), 3)
  }

  function ObjTexcoords(s: Text): seq<Value>
    requires WellMarked(s)
  {
    Coordinates(VertexStream(s, "vt"), 2)
  }

  function ObjNormals(s: Text): seq<Value>
    requires WellMarked(s)
  {
    Coordinates(VertexStream(s, "vn"), 3)
  }

  function ObjIndices(s: Text): seq<int>
    requires WellMarked(s)
  {
    Coordinates(IndexStream(s), 3)
  }

  /** `create_mesh_from_obj` on the text of the file: one iterator per stream, the
      consumer loops, then the buffers. The mesh is the one assembled from the four
      flattened streams: `PositionSource`, `TexcoordSource` and `NormalSource` take a
      vertex back to a stream entry, and `FaceSlot` and `RecordSlot` take that entry
      back to the records of `IndexStream` and `VertexStream`. */
  method CreateMeshFromObj(source: Text, invertUvs: bool) returns (m: Mesh)
    requires WellMarked(source)
    requires IndicesInRange(ObjPositions(source), ObjTexcoords(source), ObjNormals(source), ObjIndices(source))
    requires |ObjIndices(source)| < 0x1_0000_0000
    ensures m == AssembledMesh(ObjPositions(source), ObjTexcoords(source), ObjNormals(source),
                               ObjIndices(source), invertUvs)
  {
    var vertexCoordIt := new OBJVertexIterator(source, "v");
    var textureCoordIt := new OBJVertexIterator(source, "vt");
    var vertexNormalsIt := new OBJVertexIterator(source, "vn");
    var objVertices := CollectCoordinates(vertexCoordIt, 3);
    var objTexCoord := CollectCoordinates(textureCoordIt, 2);
    var objNormals := CollectCoordinates(vertexNormalsIt, 3);
    var indicesIt := new OBJIndexIterator(source);
    var objIndices := CollectIndices(indicesIt);
    m := CreateMesh(objVertices, objTexCoord, objNormals, objIndices, invertUvs);
  }
}
