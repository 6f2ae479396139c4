# d3d12_base host logic in Dafny

d3d12_base is a small Direct3D 12 renderer. It loads one OBJ mesh and one texture and
draws them every frame. This project models the host-side rules around its Direct3D
calls, and proves them:

- **The linear sub-allocator** (`BufferSubAllocator`, common/heap.h). It is a bump
  allocator over one backing buffer. Every sub-allocation is rounded up with `AlignTo`.
  A request that would reach the capacity throws.
- **The OBJ loader** (`create_mesh_from_obj`, common/lib/io/format/obj.cpp). It has
  two cursor iterators over the file text:
  - `OBJVertexIterator` reads the records of the `v`, `vt` and `vn` lines;
  - `OBJIndexIterator` reads the `p/t/n` face-vertices of the `f` lines.

  Drain loops flatten the records into vectors. A fill loop then writes one 32-byte
  interleaved vertex and one index per face-vertex.
- **The command-list ledger of the graphics queue** (base/d3d12_base.cpp):
  - `GetAvailableCommandListSubmission` reuses the oldest allocator once the GPU has
    passed its fence, or creates a new pair;
  - `SubmitCL` signals the next fence value and queues the submission;
  - the shutdown wait and `DestroyGlobalObjects` drain the queue.
- **The presentation state** (base/d3d12_base.cpp). `Render` alternates the render
  target index. `ResizeWindow` rebuilds the swap chain and the views, resets the
  index and records the new dimension.
- **The texture upload loop of `InitD3D12`** (base/d3d12_base.cpp). It copies the
  packed image row by row into the mapped upload buffer, at the 256-byte row pitch.
- **The index count** of `CreateMeshFromObj` (base/d3d12_base.cpp).
- **The format tables it rests on.** These are the stride tables over the core and
  DXGI formats, and the casts between the core and Direct3D enumerations.

The modules follow the source files. Each module is one `.dfy` file.

| module | source | form |
|---|---|---|
| Heap | common/heap.h | `AlignTo` as a function; `BufferSubAllocator` as a class |
| CoreFormats | common/lib/core/core.h, common/lib/core/utils.h | enums as 32-bit newtypes; the stride switch as a function |
| D3D12Utils | common/lib/d3d12/d3d12_utils.h | the four casts as functions |
| Utils | common/utils.h | `GetByteStrideFromFormat` as a function |
| ObjScan | common/lib/io/format/obj.cpp | what the iterators read, as functions over the text |
| ObjMesh | common/lib/io/format/obj.cpp | the mesh the fill loop builds, as a function of the four streams |
| Obj | common/lib/io/format/obj.cpp | the iterators as classes; the drain and fill loops as methods |
| D3D12Base | base/d3d12_base.cpp | `CommandQueueData` and `Direct3D12Integrator` as classes; the upload loop over an `array` |
| `Arith`, `Wrappers`, `Device` | — | arithmetic lemmas; `Option`/`Result`; device handles and creation replies |

Each loop becomes a `while` loop, proved against a function that defines its result:
- the scanners against `Span`, `Find`, `VertexFind` and `IndexFind`;
- the drains against `Coordinates` of the record streams;
- the fill loop against `AssembledMesh`;
- the upload loop against `Staged`.

These functions are then tied to independent readings. A record is the
first numeric tokens of its line (`LineTokens`). Vertex fields are traced back to the
OBJ records they come from.

The device is not modelled. Each call that can fail becomes a parameter:
- a `Creation` reply (`Created(handle)` or `CreationFailed`);
- a `bool` saying whether the call succeeded.

The GPU's completed fence value is a field of the queue. Only `Complete` and
`WaitForFence` advance it, and it never passes `fenceValue`.

## Model

| member | source | states |
|---|---|---|
| Heap.AlignTo | common/heap.h:8-11 | the result is a multiple of the alignment with `x <= r < x + alignment`, so it is the least multiple not below `x` |
| Heap.BufferSubAllocator.constructor | common/heap.h:37-38 | the capacity is `AlignTo(requested, align)`, the offset is 0, and nothing is allocated yet |
| Heap.BufferSubAllocator.SubAllocate | common/heap.h:73-84 | fails with `CantSubAllocate` and leaves the state unchanged when `offset + AlignTo(request) >= capacity`. Otherwise it returns `{resource, old offset, AlignTo(request)}`, advances the offset by exactly that size and records the allocation. It keeps `Valid`: allocations are contiguous from 0, aligned, and end below the capacity |
| Heap.AllocationsWellFormed | common/heap.h:76-81 | every allocation of a valid allocator names its one resource, has an aligned offset and lies inside the capacity (`offset + size < capacity`); of any two, the earlier ends before the later starts |
| Heap.ContiguousAppend | common/heap.h:77-81 | an allocation placed at the current end extends a contiguous run by its size |
| Heap.ContiguousDisjoint | common/heap.h:77-81 | in a contiguous run, allocations are disjoint and in increasing offset order, strictly so unless the earlier has size 0 |
| Heap.ContiguousAligned | common/heap.h:77-81 | when the run starts aligned and every size is aligned, every offset is aligned |
| Heap.ContiguousWithin | common/heap.h:77-81 | every allocation of a contiguous run lies between its start and its end |
| Heap.VbIbAllocatorCapacity | base/d3d12_base.cpp:162-163 | the 16 MiB geometry allocator with 256-byte alignment has exactly 16 MiB of capacity |
| Heap.AlignTo64 | common/heap.h:8-11 | with 64-bit `size_t` arithmetic, `AlignTo` equals the unbounded one whenever `x + alignment - 1` does not wrap |
| Heap.SubAllocateAsWritten | common/heap.h:73-84 | `subAllocate` with 64-bit wrap-around, for every input: it succeeds exactly when the wrapped sum `(offset + AlignTo64(request)) mod 2^64` is below the capacity, and fails otherwise with `CantSubAllocate`. A granted allocation names the allocator's resource, starts at the old offset and has the wrapped aligned size; the new offset is the wrapped sum |
| Heap.SubAllocateAsWrittenAgrees | common/heap.h:78-81 | where neither the rounding nor the sum wraps, the code as written refuses and grants exactly what the unbounded `subAllocate` does, with the same allocation and new offset |
| Heap.SubAllocateAsWrittenOverflows | common/heap.h:78-80 | at offset 256 of the 16 MiB allocator, a request of 2^64 - 256 bytes passes the capacity check and is granted a range far past the buffer, with the offset back at 0. A request of 2^64 - 1 bytes is granted 0 bytes |
| CoreFormats.GetStrideFromFormat | common/lib/core/utils.h:10-39 | the stride is non-zero exactly for the five enumerators other than `unknown` |
| CoreFormats.StrideMatchesChannelBits | common/lib/core/utils.h:15-35 | every stride, in bits, is the sum of the channel widths the format's name spells (thus 12, 8, 4, 4, 2, and 0 for the rest) |
| D3D12Utils.CoreToDxgiFormat | common/lib/d3d12/d3d12_utils.h:11 | the cast keeps the numeric value |
| D3D12Utils.DxgiToCoreFormat | common/lib/d3d12/d3d12_utils.h:12 | the cast keeps the numeric value |
| D3D12Utils.CoreToD3DTopology | common/lib/d3d12/d3d12_utils.h:14 | the cast keeps the numeric value |
| D3D12Utils.D3DToCoreTopology | common/lib/d3d12/d3d12_utils.h:15 | the cast keeps the numeric value |
| D3D12Utils.FormatRoundTrips | common/lib/d3d12/d3d12_utils.h:11-12 | the format casts are inverse to each other in both directions |
| D3D12Utils.TopologyRoundTrips | common/lib/d3d12/d3d12_utils.h:14-15 | the topology casts are inverse to each other in both directions |
| D3D12Utils.CoreFormatsNameDxgiFormats | common/lib/core/core.h:9-38 | each core enumerator casts to the DXGI or D3D constant of the same name; `triangle_list` casts to D3D_PRIMITIVE_TOPOLOGY_TRIANGLELIST (4) |
| Utils.GetByteStrideFromFormat | common/utils.h:64-94 | the stride is non-zero exactly for the six listed DXGI formats, and R8G8B8A8_UNORM_SRGB has the stride of R8G8B8A8_UNORM |
| Utils.StrideTablesAgree | common/utils.h:64-94 | for every core enumerator `f`, `GetByteStrideFromFormat(core_to_dxgi_format(f)) == get_stride_from_format(f)` |
| Utils.StrideTablesDifferOffEnumerators | common/utils.h:77-81 | the tables differ on the non-enumerator value 29: the core table gives 0, while its DXGI reading (R8G8B8A8_UNORM_SRGB) gives 4 |
| ObjScan.SpanKeeps | common/lib/io/format/obj.cpp:131 | every character a skip loop runs over is in the skipped class |
| ObjScan.Find | common/lib/io/format/obj.cpp:122 | `find` returns `npos` or an occurrence at or after `from`, and there is no earlier occurrence |
| ObjScan.LineTokensAreNumbers | common/lib/io/format/obj.cpp:131-145 | each token of a line starts at a digit or '-' and continues over digits and '.' only |
| ObjScan.VertexFind | common/lib/io/format/obj.cpp:117-161 | the record is empty, or it is three slots read after the two marker characters, ending inside the text |
| ObjScan.VertexRecordAtMarker | common/lib/io/format/obj.cpp:121-130 | a record is read only at the first occurrence of the marker at or after the cursor, and that occurrence starts the text or follows ' ' or '\n'; reading starts two characters after it |
| ObjScan.VertexRecordIsLineTokens | common/lib/io/format/obj.cpp:128-156 | the record is empty exactly when the line holds fewer than two numeric tokens. Otherwise it is the first two tokens and the third, or the previous third slot when the line holds only two |
| ObjScan.VertexSecondIsLineTokens | common/lib/io/format/obj.cpp:139-156 | after the first number, the record is empty exactly when no token follows on the line, and otherwise takes the next one or two tokens |
| ObjScan.VertexThirdIsLineTokens | common/lib/io/format/obj.cpp:148-156 | the optional third number is the next token of the line, and the third slot keeps its previous value when there is none |
| ObjScan.VertexStreamFrom | common/lib/io/format/obj.cpp:96-100 | the stream is the records up to the first empty one (later records are dropped), each of three slots |
| ObjScan.IndexFind | common/lib/io/format/obj.cpp:197-259 | a face-vertex read is empty, or three values ending after the cursor: a position index `>= 0`, and texcoord and normal indices `>= -1` |
| ObjScan.IndexRecordShape | common/lib/io/format/obj.cpp:214-253 | a face-vertex is digits, '/', optional digits, '/', optional digits, on one line. The texcoord is -1 exactly for `p//…` and the normal is -1 exactly when no digit follows the second '/'. `lineParsing` holds afterwards exactly when a digit follows on the line |
| ObjScan.FaceVertexShape | common/lib/io/format/obj.cpp:219-253 | the same shape, from the first digit of the face-vertex |
| ObjScan.FaceVertexUnfolds | common/lib/io/format/obj.cpp:219-239 | a face-vertex read successfully has its '/' right after the position digits. Its second '/' ends the optional texcoord digits, and its texcoord is -1 exactly when they are absent |
| ObjScan.NormalIndexShape | common/lib/io/format/obj.cpp:241-253 | the normal is -1 exactly when no digit follows; the cursor stops at the next digit or line end, and `lineParsing` says which |
| ObjScan.FaceVertexOnOneLine | common/lib/io/format/obj.cpp:214-252 | the characters of one face-vertex and the gap after it are digits where the format says so and contain no line break |
| ObjScan.IndexStreamFrom | common/lib/io/format/obj.cpp:179-182 | the face-vertex stream is the triples up to the first empty one |
| ObjScan.CoordinatesAt | common/lib/io/format/obj.cpp:319-325 | slot `j` of record `i` sits at `i * coordSize + j` of the flattened data |
| ObjScan.CoordinatesLength | common/lib/io/format/obj.cpp:319-325 | the flattened data holds `coordSize` values per record |
| ObjScan.FlipIsInvolution | common/lib/io/format/obj.cpp:414 | over the reals, the UV flip is `1 - v`, and flipping twice gives back `v` |
| Obj.SkipClass | common/lib/io/format/obj.cpp:131 | the skip loop stops at `Span`, the first character outside the class |
| Obj.ReadToken | common/lib/io/format/obj.cpp:134-136 | the `do`/`while` loop collects exactly the characters from the first one up to the end of the class run |
| Obj.FindMarker | common/lib/io/format/obj.cpp:121-123 | when every marker is line-leading, the search loop returns `find`'s first result and terminates |
| Obj.ReadVertexNumbers | common/lib/io/format/obj.cpp:128-137 | the body of `findElement` after the marker computes `ReadVertexRecord` |
| Obj.ReadSecondNumber | common/lib/io/format/obj.cpp:139-146 | it computes `ReadVertexSecond` |
| Obj.ReadThirdNumber | common/lib/io/format/obj.cpp:148-156 | it computes `ReadVertexThird` |
| Obj.OBJVertexIterator.constructor | common/lib/io/format/obj.cpp:84-90 | the delimiter is the marker plus a blank, and the records still to come are the whole `VertexStream` |
| Obj.OBJVertexIterator.FindElement | common/lib/io/format/obj.cpp:117-161 | the cursor and the slots become `VertexFind` from the start position, with the old third slot |
| Obj.OBJVertexIterator.Next | common/lib/io/format/obj.cpp:97-100 | resumes one past the cursor (unless it is 0) and drops exactly the first record still to come |
| Obj.OBJVertexIterator.Current | common/lib/io/format/obj.cpp:107-110 | the slots are empty exactly when the stream is exhausted, and are its next record otherwise |
| Obj.ReadPositionIndex | common/lib/io/format/obj.cpp:218-225 | reading from the first digit computes `ReadFaceVertex` |
| Obj.ReadTexcoordSlot | common/lib/io/format/obj.cpp:227-239 | it computes `ReadTexcoordIndex` |
| Obj.ReadNormalSlot | common/lib/io/format/obj.cpp:241-253 | it computes `ReadNormalIndex` |
| Obj.OBJIndexIterator.constructor | common/lib/io/format/obj.cpp:167-173 | the face-vertices still to come are the whole `IndexStream` |
| Obj.OBJIndexIterator.FindElement | common/lib/io/format/obj.cpp:197-259 | the cursor, `lineParsing` and the slots become `IndexFind` from the start position with the old flag |
| Obj.OBJIndexIterator.Next | common/lib/io/format/obj.cpp:179-182 | resumes at the cursor and drops exactly the first face-vertex still to come |
| Obj.OBJIndexIterator.Current | common/lib/io/format/obj.cpp:188-191 | the slots are empty exactly when the stream is exhausted, and are its next triple otherwise |
| Obj.CollectCoordinates | common/lib/io/format/obj.cpp:317-326 | the drain loop exhausts the iterator and pushes the first `coordSize` slots of every record, in order |
| Obj.PushSlots | common/lib/io/format/obj.cpp:321-324 | the inner loop appends exactly the first `coordSize` slots |
| Obj.CollectIndices | common/lib/io/format/obj.cpp:358-364 | the index loop exhausts the iterator and pushes the three slots of every face-vertex, in order |
| Obj.WriteVertex | common/lib/io/format/obj.cpp:396-428 | one round of the fill loop writes the eight cells of vertex `i / 3` as `VertexCell` gives them, and no other cell |
| Obj.CreateMesh | common/lib/io/format/obj.cpp:380-442 | the attribute list, the two buffers and the fill loop build exactly `AssembledMesh` of the four streams |
| Obj.CreateMeshFromObj | common/lib/io/format/obj.cpp:285-443 | the loader returns the mesh assembled from the flattened `v`, `vt`, `vn` and `f` streams of the text |
| ObjMesh.VertexLayout | common/lib/io/format/obj.cpp:380-386 | position@0 (r32g32b32), texcoord@12 (r32g32), normal@20 (r32g32b32); each offset is the previous offset plus its stride; 32 bytes, or 8 floats, per vertex |
| ObjMesh.IndexFormatFor | common/lib/io/format/obj.cpp:388 | the index format is r16_uint or r32_uint |
| ObjMesh.IndexFormatHoldsIndices | common/lib/io/format/obj.cpp:431-438 | r16_uint is chosen exactly when `N <= 0xFFFF`; every index `k < N` fits the chosen width, so the 16-bit store does not truncate |
| ObjMesh.MeshShape | common/lib/io/format/obj.cpp:380-389 | with `N` face-vertices: a triangle list, `N * 32` vertex bytes, the r16_uint format exactly when `N <= 0xFFFF` (else r32_uint), `N` indices with index `k == k` and byte size `N * stride`, and the attribute layout |
| ObjMesh.VertexCellAt | common/lib/io/format/obj.cpp:394-428 | cell `8 * k + j` of the vertex buffer is field `j` of vertex `k` |
| ObjMesh.PositionSource | common/lib/io/format/obj.cpp:396-398 | vertex `k`'s position is the three values of position record `p_k - 1` |
| ObjMesh.TexcoordSource | common/lib/io/format/obj.cpp:401-421 | vertex `k`'s texcoord is record `t_k - 1` with `v` replaced by `1 - v` under `invert_uvs`, or `(0, 0)` when the texcoord stream is empty |
| ObjMesh.NormalSource | common/lib/io/format/obj.cpp:425-427 | vertex `k`'s normal is the three values of normal record `n_k - 1` |
| ObjMesh.RecordSlot | common/lib/io/format/obj.cpp:396-398 | a 1-based record number whose slots lie in the flattened stream names an existing record, and those slots are that record's values |
| ObjMesh.FaceSlot | common/lib/io/format/obj.cpp:359-364 | entry `3 * k + j` of the flattened index stream is slot `j` of face-vertex `k` |
| D3D12Base.FrontDecides | base/d3d12_base.cpp:567 | on an ordered ledger, testing the front alone decides reuse: it is reusable exactly when some entry's fence has completed |
| D3D12Base.PopKeepsOrder | base/d3d12_base.cpp:584-585 | popping the front keeps the ledger ordered |
| D3D12Base.PushKeepsOrder | base/d3d12_base.cpp:600-606 | pushing a submission stamped with the next fence value keeps the ledger ordered under the new fence value |
| D3D12Base.SettledLedger | base/d3d12_base.cpp:260-263 | once the GPU has reached `fenceValue`, every entry's fence has completed and a non-empty ledger is reusable |
| D3D12Base.ReleaseOrderAt | base/d3d12_base.cpp:994-999 | the drain releases two objects per entry, front to back: the list first, then the allocator |
| D3D12Base.CommandQueueData.constructor | base/d3d12_base.cpp:45-51 | the queue starts with fence value 0, an empty ledger and a completed value of 0 |
| D3D12Base.CommandQueueData.Complete | base/d3d12_base.cpp:603 | the GPU reaches a signalled value: the completed value moves forward to `v <= fenceValue` and the ledger stays ordered |
| D3D12Base.CommandQueueData.WaitForFence | base/d3d12_base.cpp:757-760 | after the wait the completed value equals `fenceValue` |
| D3D12Base.CommandQueueData.GetAvailableCommandListSubmission | base/d3d12_base.cpp:556-598 | Empty ledger, or front fence above the completed value: a new allocator and list with fence 0, the ledger unchanged, and the allocator or list failure reported as such. Otherwise: exactly the front is popped, and its allocator is returned with a new list and fence 0, or the list failure. Never an allocator whose fence is pending. The ledger stays ordered |
| D3D12Base.CommandQueueData.SubmitCL | base/d3d12_base.cpp:600-606 | `fenceValue` grows by exactly 1, the submission is stamped with the new value and appended at the back, and the ledger stays ordered |
| D3D12Base.CommandQueueData.DestroyGlobalObjects | base/d3d12_base.cpp:992-999 | the drain empties the ledger and releases `ReleaseOrder` of it |
| D3D12Base.CommandQueueData.Shutdown | base/d3d12_base.cpp:260-265 | wait for `fenceValue`, then drain: every released entry's fence had completed, and the ledger ends empty |
| D3D12Base.NextRTVIndex | base/d3d12_base.cpp:691 | the next index stays below `SWAP_CHAIN_SIZE` (2) and differs from the current one |
| D3D12Base.RTVIndexAlternates | base/d3d12_base.cpp:691 | two flips give the index back: frames alternate between the two back buffers |
| D3D12Base.Direct3D12Integrator.constructor | base/d3d12_base.cpp:173-200 | the integrator starts with its device, its film of the given dimension (no swap chain, index 0) and an empty fresh queue |
| D3D12Base.Direct3D12Integrator.Render | base/d3d12_base.cpp:625-693 | on failure to acquire, the film and the fence stay, and the ledger has lost its front exactly when that front was reusable (it was popped before `CreateCommandList` failed), otherwise it is unchanged. On success: a submission is acquired and submitted with the next fence value, the ledger is the acquired-from ledger plus it, and the RTV index flips |
| D3D12Base.ResizeWindow | base/d3d12_base.cpp:752-864 | Without an integrator or a device: nothing happens. Otherwise it waits for the GPU, then resizes the existing swap chain or creates one. Each failure stops it with its cause; the film keeps its index and dimension, and a failure of the views keeps the new swap chain. On success the film is the new dimension, the swap chain, and index 0 |
| D3D12Base.RowPitch | base/d3d12_base.cpp:524-525 | the row pitch is a multiple of 256 with `width * 4 <= pitch < width * 4 + 256` |
| D3D12Base.StagedNothing | base/d3d12_base.cpp:522 | before the first row, the upload buffer is untouched |
| D3D12Base.StagedRow | base/d3d12_base.cpp:517-530 | byte `c` of image row `r` lands at `r * pitch + c` of the upload buffer |
| D3D12Base.StagedKeeps | base/d3d12_base.cpp:517-530 | the padding of every row, and every byte past the last row, keep their old value |
| D3D12Base.StagedStepAt | base/d3d12_base.cpp:524-528 | staging row `line` changes exactly the `width * 4` bytes at `line * pitch`, to that row of the image |
| D3D12Base.StagedStep | base/d3d12_base.cpp:524-528 | the `memcpy` of row `line` to its pitched place turns the buffer staged up to `line` into the one staged up to `line + 1` |
| D3D12Base.Memcpy | base/d3d12_base.cpp:526 | `n` bytes of the source from `srcOffset` replace the destination bytes from `dstOffset`, and nothing else changes |
| D3D12Base.CopyRow | base/d3d12_base.cpp:524-528 | one round of the upload loop stages one row more |
| D3D12Base.RowFits | base/d3d12_base.cpp:522-528 | every row of the image lies inside the image and, at the pitch, inside a buffer that holds the last row |
| D3D12Base.CopyTextureRows | base/d3d12_base.cpp:517-530 | the loop leaves the upload buffer exactly `Staged`: row `r` (`width * 4` bytes from `r * width * 4`) at `r * AlignTo(width * 4, 256)` for every `r < height`, and every other byte as it was |
| D3D12Base.IndexCount | base/d3d12_base.cpp:887 | the count fits a `UINT` and is the floor of the `UINT`-truncated index buffer size divided by the DXGI stride |
| D3D12Base.IndexCountOf | base/d3d12_base.cpp:885-887 | for `n` indices in the format chosen for `n`, the stride is non-zero, and the count is `n` whenever the size fits a `UINT` |
| D3D12Base.MeshIndexCount | base/d3d12_base.cpp:885-888 | for a loaded OBJ mesh, the index count is the number of face-vertices whenever the index buffer size fits a `UINT`, and the topology casts to D3D_PRIMITIVE_TOPOLOGY_TRIANGLELIST |

## Left out

- Direct3D and DXGI calls are not modelled. This covers the device, queue, fence, heaps, resources, descriptor heaps, PSO, root signature, barriers, `CopyTexture`, `Map`/`Unmap`, `Present`, and the recording of `Render`'s command list. Each call that can fail is a reply parameter.
- `GetCompletedValue`/`Signal` are not modelled. The completed value is a field advanced by explicit steps.
- The Win32 window, the message loop and `WndProc` are UI and event routing. They are not modelled.
- File reading is I/O and is not modelled: the `OBJParser` constructor, the size probe in `create_mesh_from_obj`, and the image decoder. The OBJ text and the decoded image are inputs.
- The three `std::thread`s of `create_mesh_from_obj` are concurrency. They are modelled as three sequential drains of the same immutable text.
- `atof` and floating-point arithmetic are not modelled. A coordinate is kept as its token text (`Value`), with `OneMinus` for the UV flip. `ObjScan.FlipIsInvolution` reads the flip over the reals through any conversion.
- `atoi` is modelled only on digit runs (`DigitsValue`): the model does not wrap the decimal value to 32 bits, and keeps -1 as -1 rather than `0xFFFFFFFF`.
- Obj.FindMarker, Obj.OBJVertexIterator.constructor, Obj.OBJIndexIterator.constructor: require that every occurrence of a marker such as `f ` start the text or follow ' ' or '\n' (`LineLeadingMarkers`). For any other occurrence, for example `of ` in a comment, the source's search loop returns the same rejected position forever, so the model does not cover such texts.
- Obj.CreateMesh, Obj.CreateMeshFromObj, ObjMesh.AssembledMesh: require that every face-vertex name existing records (`IndicesInRange`). The source does not check this. A `p//n` face-vertex (texcoord -1) in a file with `vt` lines reads outside the texcoord vector, and so does any index past its stream.
- Obj.CreateMesh: requires fewer than 2^32 face-vertex entries, so the `std::uint32_t` loop counter does not wrap.
- Obj.CreateMeshFromObj: the composition from records to vertex fields is stated as a chain of lemmas (`PositionSource`, `TexcoordSource` and `NormalSource`, then `FaceSlot` and `RecordSlot`), not as one lemma over the OBJ records.
- The OBJ text is a Dafny `string`, a sequence of characters, not the bytes of a `std::string`. `isdigit` is read as ASCII `'0'..'9'`; the undefined behaviour of `isdigit` on a negative `char` (a non-ASCII byte) is not modelled.
- The `mesh`, `io::buffer` and byte-level buffer layout are abstracted: a vertex buffer is a sequence of 4-byte float cells, and an index buffer is a sequence of index values.
- D3D12Base.CommandQueueData.SubmitCL: `fenceValue` is an unbounded natural; the `UINT64` wrap-around after 2^64 submissions is not modelled.
- D3D12Base.CommandQueueData.GetAvailableCommandListSubmission: only the `DIRECT` list type is modelled, the only one the renderer uses. For any other type the source dereferences a null queue pointer. The release of the old list and the `Reset` of a reused allocator are not modelled. When list creation fails after a pop, the popped allocator is lost; the model only reports the failure.
- D3D12Base.ResizeWindow:
  - the DXGI factory and the swap chain creation are one `swapChainReply`;
  - the depth-stencil buffer, the two back-buffer RTVs and the DSV are one `viewsOk`;
  - in both the model keeps only which step failed.
- `Film.format` is not modelled; only the dimension, the swap chain and the RTV index are.
- D3D12Base.CopyTextureRows: `width * 4` is computed in unbounded arithmetic; the `std::uint32_t`/`std::size_t` overflow of huge widths is not modelled. The caller's guarantee that the image and the upload buffer are large enough is a precondition.
- Heap.BufferSubAllocator.SubAllocate:
  - the capacity check is `>=` as in the code, so a request that exactly fills the buffer is rejected;
  - the source returns an rvalue reference to a local, modelled as returning the value;
  - the arithmetic is unbounded (see Findings);
  - the constructor's `CreateCommittedResource` failure is not modelled.
- The rest of the repository is not part of this model: the camera, trackball, lights, materials, shaders, the image decoder's gamma decode, and the rest of `InitD3D12`.

## Findings

| source | as written | input that shows it | evidently intended | confidence | as-written member | corrected member |
|---|---|---|---|---|---|---|
| common/heap.h:78-80 | `AlignTo(size_, align)` and `currentOffset + subAllocation.size >= size` are computed in 64-bit `std::size_t` and wrap | 16 MiB allocator at offset 256: `subAllocate(2^64 - 256)` passes the check, gets a range far past the buffer, and resets the offset to 0. `subAllocate(2^64 - 1)` gets 0 bytes | a request that does not fit is refused, and every granted range lies inside the buffer | low (needs an absurd request size); not executed | Heap.SubAllocateAsWritten, Heap.SubAllocateAsWrittenOverflows | Heap.BufferSubAllocator.SubAllocate |
