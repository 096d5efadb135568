# ragnarok: verified model of the SVG packer and the D3D12 binding bookkeeping

This project models three pieces of the ragnarok renderer in Dafny.

- **The path-to-GPU-layout packer** (`src/svg.rs`). `generate_gpu_data` walks already-flattened Bezier paths. The packer keeps a `first` (subpath start) and a `last` (current) point, both starting at the origin. For every `LineTo` and every `ClosePath` it appends one `PRIMITIVE_LINE` tag and four coordinate words. For every path it appends one `Object` holding the path's primitive range, its data offset and its bounding box. `GpuData` is a class with three sequence fields, and the packer is a method with loops over paths and over elements. Both are proved against specification functions (`Tags`, `Coords`, `Objects` over `AllLines`). The layout properties are lemmas about those functions: the 4:1 ratio of words to tags, contiguous object ranges, one object per path, append-only output, and how the cursor moves.
- **The SVG loader** (`parse_svg`). Of the document root's direct children, it keeps the `Path` nodes with a solid `Color` fill, in document order. It translates each segment one-to-one into a path element and hands the path to the curve flattener.
- **Descriptor pools and view records** (`src/descriptor.rs`). `create_pool` and the four pool accessors do offset arithmetic over descriptor handles. The buffer and image view builders fill in records.
- **Pipeline layouts** (`src/pipeline.rs`). `create_pipeline_layout` partitions one descriptor-range vector into consecutive slices, one per descriptor table, and builds one root parameter per layout entry.

Modelling choices:

- Panics in the source become preconditions: `assert!`, `todo!()`, and debug-mode underflow of `end - start`.
- Rust's `as u32` / `as _` casts of lengths and offsets are explicit truncation (`Common.AsU32`). The layout lemmas assume that the document fits in `u32` (`SvgLayout.Fits`).
- Descriptor handles are natural numbers.
- Coordinates are `real`, and the packer's `f64 as f32` cast is the identity.
- These foreign calls are parameters of the model:
  - the usvg parse of the file (a `Result` holding the root's children or an error);
  - `pathbreaker::break_path`;
  - kurbo's `bounding_box`.
- A descriptor table is modelled as the index of its first range and its number of ranges in the range vector. The source uses a pointer and a length into that vector.

Two behaviours of the code that the model keeps:

- `parse_svg` visits only the direct children of the root node (src/svg.rs:91), not the whole tree.
- The bounding box of an object is taken of the path as passed to `generate_gpu_data` (src/svg.rs:36). The loader has already flattened that path.

## Model

| member | source | states |
|---|---|---|
| Common.AsU32 | src/svg.rs:78-79 | `as u32` keeps a value below 2^32 unchanged and maps a larger one to something smaller |
| Svg.GpuData.constructor | src/svg.rs:22-29 | a new GpuData has three empty vectors |
| Svg.GpuData.PushLine | src/svg.rs:49-56 | appends one PRIMITIVE_LINE tag and the four words x0, y0, x1, y1, and changes nothing else |
| Svg.PackPath | src/svg.rs:41-73 | walking one path from the origin appends exactly the tags and words of the path's lines to the existing vectors |
| Svg.GenerateGpuData | src/svg.rs:32-85 | the packer's output is the tags and words of all lines of all paths in order, plus one object per path built from the counts before and after it and its bounding box |
| SvgLayout.CoordsLength | src/svg.rs:49-67 | there are exactly four data words per line |
| SvgLayout.LineCount | src/svg.rs:44-72 | a path emits one primitive per LineTo and per ClosePath, and none for MoveTo |
| SvgLayout.ObjectRange | src/svg.rs:36-81 | object i starts at the primitive count before path i and ends at that count plus the path's drawing elements, within the primitive vector; its data offset is four times its start; its bbox is the path's bounding box |
| SvgLayout.LayoutCounts | src/svg.rs:32-85 | one object per path, four words per primitive, and every tag is PRIMITIVE_LINE |
| SvgLayout.LayoutEnds | src/svg.rs:38-81 | the first object starts at 0 and the last object ends at the end of the primitive vector |
| SvgLayout.LayoutContiguous | src/svg.rs:39-81 | each object starts where the previous one ends |
| SvgLayout.LayoutTiles | src/svg.rs:35-82 | the object ranges tile the primitive vector: start at 0, adjacent, ordered, ending at its end |
| SvgLayout.ObjectData | src/svg.rs:38-81 | the words an object addresses, from its data offset over four words per primitive, are exactly the words of its path's lines |
| SvgLayout.PrefixStable | src/svg.rs:50-67 | the primitives and data written for a prefix of the document are a prefix of the full output |
| SvgLayout.ObjectsPrefixStable | src/svg.rs:77-81 | the objects of a prefix of the document are a prefix of the document's objects |
| SvgWalk.PathLinesPrefix | src/svg.rs:43-73 | walking further elements never rewrites lines already emitted |
| SvgWalk.SubpathStartKept | src/svg.rs:45-69 | only MoveTo moves the subpath start |
| SvgWalk.ClosePathReturns | src/svg.rs:60-69 | after MoveTo(p) and LineTo elements, ClosePath emits exactly one line, from the current point to p, and leaves both points at p |
| SvgWalk.CloseBeforeMoveToReturnsToOrigin | src/svg.rs:41-42 | a ClosePath before any MoveTo draws back to the origin |
| SvgWalk.LeadingLineToStartsAtOrigin | src/svg.rs:41-59 | a LineTo(p) before any MoveTo draws the line from the origin to p |
| SvgWalk.OpenPolyline | src/svg.rs:43-59 | an open polyline emits its edges in order and ends with the subpath start at its first vertex and the current point at its last |
| SvgWalk.ClosedPolygon | src/svg.rs:43-70 | a closed polygon emits exactly its n edges; the ClosePath supplies the last one |
| SvgWalk.QuadLines | src/svg.rs:43-70 | a closed quadrilateral emits four lines |
| SvgWalk.OneSquare | src/svg.rs:32-85 | one closed square packs into 4 tags, 16 words and the object [0, 4) at offset 0 |
| SvgWalk.TwoSquares | src/svg.rs:32-85 | two closed squares pack into 8 tags, 32 words, and objects [0, 4) at 0 and [4, 8) at 16 |
| SvgWalk.EmptyDocument | src/svg.rs:33-35 | an empty document packs into three empty vectors |
| SvgLoad.Translate | src/svg.rs:95-121 | the segment translation: one element per segment and never a QuadTo; the round trip is stated by TranslateRoundTrip |
| SvgLoad.Selected | src/svg.rs:91-131 | the fill filter and flattening: at most one path per child; order and count are stated by SelectedAppend and SelectedCount |
| SvgLoad.ParseSvg | src/svg.rs:87-136 | a load error is passed on unchanged; otherwise the result is the flattened translation of each solid-filled path node, in document order |
| SvgLoad.TranslateRoundTrip | src/svg.rs:95-121 | the translation is one element per segment, and each segment can be read back from its element |
| SvgLoad.TranslateCurveFree | src/svg.rs:95-121 | a translated path has no curves if and only if its segments have no CurveTo |
| SvgLoad.SelectedAppend | src/svg.rs:91-133 | loading distributes over a split of the child list, so document order is kept |
| SvgLoad.SelectedCount | src/svg.rs:91-131 | the number of loaded paths equals the number of Path children whose fill is a solid color |
| SvgLoad.SelectedCurveFree | src/svg.rs:122-127 | if the flattener emits no curves, every loaded path is accepted by the packer |
| Descriptor.DescriptorPool.ViewCpu | src/descriptor.rs:63-68 | requires offset < num_views; the handle lies in the pool's view window |
| Descriptor.DescriptorPool.SamplerCpu | src/descriptor.rs:70-75 | requires offset < num_samplers; the handle lies in the pool's sampler window |
| Descriptor.DescriptorPool.ViewGpu | src/descriptor.rs:77-82 | requires offset < num_views; the GPU handle lies in the pool's view window |
| Descriptor.DescriptorPool.SamplerGpu | src/descriptor.rs:84-89 | requires offset < num_samplers; the GPU handle lies in the pool's sampler window |
| Descriptor.CreatePool | src/descriptor.rs:16-42 | requires start <= end for both ranges; the pool holds end - start views and end - start samplers |
| Descriptor.PoolAddressesHeap | src/descriptor.rs:16-89 | pool offset o addresses heap handle start + (range.start + o) * increment, on the CPU and GPU side, for views and for samplers |
| Descriptor.ViewHandlesDistinct | src/descriptor.rs:63-82 | with a non-zero increment, distinct offsets give distinct view handles |
| Descriptor.DisjointPoolsDoNotAlias | src/descriptor.rs:16-82 | pools over non-overlapping view ranges hand out disjoint handles |
| Descriptor.BufferUniformView | src/descriptor.rs:146-169 | the record for CreateShaderResourceView: it starts at the first requested element and never covers more than requested; exact coverage is stated by UniformViewCoversElements |
| Descriptor.BufferStorageView | src/descriptor.rs:171-199 | the record for CreateUnorderedAccessView: a buffer view with a matching union member, starting at the first requested element and covering no more than requested; see StorageViewCoversElements |
| Descriptor.ImageStorageView | src/descriptor.rs:201-240 | the record for CreateUnorderedAccessView: the dimension names the member written, and the view covers no layer past the requested end; see ImageViewCoversLayers |
| Descriptor.UniformViewCoversElements | src/descriptor.rs:146-169 | a uniform view is an unknown-format buffer SRV over exactly the requested elements, with the requested stride |
| Descriptor.StorageViewCoversElements | src/descriptor.rs:171-199 | a storage view is an unknown-format buffer UAV over exactly the requested elements, with the requested stride and counter offset 0 |
| Descriptor.ImageViewCoversLayers | src/descriptor.rs:201-240 | the view is plain TEXTURE2D if and only if the layers are 0..1, and otherwise TEXTURE2DARRAY over exactly those layers; it keeps the mip level and format, with plane 0 |
| Pipeline.NumRanges | src/pipeline.rs:53-59 | num_ranges is zero exactly when no entry has a binding; additivity is stated by NumRangesAppend |
| Pipeline.EntryRanges | src/pipeline.rs:67-78 | a table entry contributes one range per binding; a constant entry contributes none |
| Pipeline.PushRanges | src/pipeline.rs:68-78 | the binding loop appends exactly the entry's ranges after the existing ones |
| Pipeline.CreatePipelineLayout | src/pipeline.rs:52-101 | the range vector is the entries' ranges in order, of length num_ranges; one parameter per entry, in order, each a table over its own slice or the constants verbatim |
| Pipeline.NumRangesAppend | src/pipeline.rs:53-59 | num_ranges is additive over a split of the layout |
| Pipeline.NumRangesBound | src/pipeline.rs:53-62 | the ranges of any prefix stay within the capacity num_ranges |
| Pipeline.ConstantsAddNoRanges | src/pipeline.rs:53-59 | constant entries contribute no ranges |
| Pipeline.AllRangesAppend | src/pipeline.rs:65-101 | the range vector of a split layout is the two parts' vectors concatenated |
| Pipeline.RangesLength | src/pipeline.rs:53-78 | at the end the range vector has exactly num_ranges entries |
| Pipeline.TableSlice | src/pipeline.rs:79-84 | table i's slice lies inside the range vector, has one range per binding, and holds exactly that entry's ranges |
| Pipeline.TableRange | src/pipeline.rs:69-77 | range k of a table has binding k's type, count end - start, base register start, its space, and the append offset !0 |
| Pipeline.TablesAdjacent | src/pipeline.rs:79-84 | successive tables are adjacent: the next table starts where the previous one ends |

## Left out

- The usvg file read and parse, `pathbreaker::break_path` and kurbo's `bounding_box` are foreign library calls. They become parameters of the model. The flattener's promise that its output has no curves is a hypothesis of `SelectedCurveFree`.
- Floating point: the `f64 as f32` casts are the identity, and no rounding is modelled.
- Fill opacity, fill rule and the colour value are not read by the loader and are not modelled.
- The `#[repr(C)]` byte layout of `Object` and the byte reinterpretation used to upload the vectors are unsafe memory views.
- Shader compilation and file reading, and the serialization and creation of the root signature, in `src/pipeline.rs` are foreign calls and I/O.
- `create_descriptor_heap` and the native `CreateShaderResourceView` / `CreateUnorderedAccessView` calls are device FFI. Only the records they receive are modelled.
- Overflow of pointer arithmetic on `usize` / `u64` handles is not modelled; handles are unbounded naturals.
- The device, command, swap-chain, query, resource, debug and error modules, queue/semaphore submission, and the demo are thin platform wrappers. They are not part of this model.
- Descriptor.CreatePool: its contract states only the window sizes. The handle arithmetic is stated by `PoolAddressesHeap`.
- Svg.GenerateGpuData: the object fields are truncated by `as u32`. The layout lemmas that read them as counts assume `Fits`, a total below 2^32 words.
