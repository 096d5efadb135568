/** Descriptor heaps and pools. A pool is a window of a shader-visible
    view heap and of a sampler heap; its accessors turn an offset in the
    window into a CPU or GPU descriptor handle. Handles are addresses,
    modelled as naturals; the view builders compute the records handed to
    CreateShaderResourceView and CreateUnorderedAccessView. */
module Descriptor {
  import opened Common

  /** A CPU descriptor handle (a `usize` address). */
  datatype CpuDescriptor = CpuDescriptor(ptr: nat)

  /** A GPU descriptor handle (a `u64` address). */
  datatype GpuDescriptor = GpuDescriptor(ptr: nat)

  /** A Rust half-open range `start..end`. */
  datatype Range = Range(start: nat, end: nat)

  predicate Ordered(r: Range) {
    r.start <= r.end
  }

  /** A native descriptor heap, seen through the first handles it reports. */
  datatype NativeHeap = NativeHeap(startCpu: CpuDescriptor, startGpu: GpuDescriptor)

  /** The view heap and the sampler heap, with the handle increment of each
      heap type as the device reports it. */
  datatype DescriptorHeap = DescriptorHeap(
    heapView: NativeHeap,
    heapSampler: NativeHeap,
    incrementView: u32,
    incrementSampler: u32)

  datatype DescriptorPool = DescriptorPool(
    viewStartCpu: CpuDescriptor,
    viewStartGpu: GpuDescriptor,
    incrementView: u32,
    numViews: nat,
    samplerStartCpu: CpuDescriptor,
    samplerStartGpu: GpuDescriptor,
    incrementSampler: u32,
    numSamplers: nat)
  {
    /** The CPU handle of view `offset`; the source asserts offset < numViews. */
    function ViewCpu(offset: nat): (h: CpuDescriptor)
      requires offset < numViews
      ensures viewStartCpu.ptr <= h.ptr
      ensures incrementView > 0 ==> h.ptr < viewStartCpu.ptr + numViews * incrementView
    {
      MulStrictlyBelow(offset, numViews, incrementView);
      CpuDescriptor(viewStartCpu.ptr + offset * incrementView)
    }

    /** The CPU handle of sampler `offset`; the source asserts offset < numSamplers. */
    function SamplerCpu(offset: nat): (h: CpuDescriptor)
      requires offset < numSamplers
      ensures samplerStartCpu.ptr <= h.ptr
      ensures incrementSampler > 0 ==> h.ptr < samplerStartCpu.ptr + numSamplers * incrementSampler
    {
      MulStrictlyBelow(offset, numSamplers, incrementSampler);
      CpuDescriptor(samplerStartCpu.ptr + offset * incrementSampler)
    }

    /** The GPU handle of view `offset`; the source asserts offset < numViews. */
    function ViewGpu(offset: nat): (h: GpuDescriptor)
      requires offset < numViews
      ensures viewStartGpu.ptr <= h.ptr
      ensures incrementView > 0 ==> h.ptr < viewStartGpu.ptr + numViews * incrementView
    {
      MulStrictlyBelow(offset, numViews, incrementView);
      GpuDescriptor(viewStartGpu.ptr + offset * incrementView)
    }

    /** The GPU handle of sampler `offset`; the source asserts offset < numSamplers. */
    function SamplerGpu(offset: nat): (h: GpuDescriptor)
      requires offset < numSamplers
      ensures samplerStartGpu.ptr <= h.ptr
      ensures incrementSampler > 0 ==> h.ptr < samplerStartGpu.ptr + numSamplers * incrementSampler
    {
      MulStrictlyBelow(offset, numSamplers, incrementSampler);
      GpuDescriptor(samplerStartGpu.ptr + offset * incrementSampler)
    }
  }

  /** The pool over views `views` and samplers `samplers` of the heap.
      `end - start` on `usize` panics when end < start, hence the requires. */
  function CreatePool(heap: DescriptorHeap, views: Range, samplers: Range): (pool: DescriptorPool)
    requires Ordered(views) && Ordered(samplers)
    ensures pool.numViews == views.end - views.start && pool.numSamplers == samplers.end - samplers.start
  {
    DescriptorPool(
      CpuDescriptor(heap.heapView.startCpu.ptr + views.start * heap.incrementView),
      GpuDescriptor(heap.heapView.startGpu.ptr + views.start * heap.incrementView),
      heap.incrementView,
      views.end - views.start,
      CpuDescriptor(heap.heapSampler.startCpu.ptr + samplers.start * heap.incrementSampler),
      GpuDescriptor(heap.heapSampler.startGpu.ptr + samplers.start * heap.incrementSampler),
      heap.incrementSampler,
      samplers.end - samplers.start)
  }

  lemma MulStrictlyBelow(a: nat, b: nat, c: nat)
    requires a < b
    ensures a * c <= b * c
    ensures c > 0 ==> a * c < b * c
  {
    if c > 0 {
      assert b * c == a * c + (b - a) * c;
    }
  }

  lemma Distribute(a: nat, b: nat, c: nat)
    ensures (a + b) * c == a * c + b * c
  {
  }

  /** Offset `offset` of a pool addresses heap descriptor `start + offset`,
      on the CPU and the GPU side alike, for views and for samplers. */
  lemma PoolAddressesHeap(heap: DescriptorHeap, views: Range, samplers: Range, offset: nat)
    requires Ordered(views) && Ordered(samplers)
    ensures var pool := CreatePool(heap, views, samplers);
      && (offset < views.end - views.start ==>
            && pool.ViewCpu(offset).ptr == heap.heapView.startCpu.ptr + (views.start + offset) * heap.incrementView
            && pool.ViewGpu(offset).ptr == heap.heapView.startGpu.ptr + (views.start + offset) * heap.incrementView)
      && (offset < samplers.end - samplers.start ==>
            && pool.SamplerCpu(offset).ptr
               == heap.heapSampler.startCpu.ptr + (samplers.start + offset) * heap.incrementSampler
            && pool.SamplerGpu(offset).ptr
               == heap.heapSampler.startGpu.ptr + (samplers.start + offset) * heap.incrementSampler)
  {
    Distribute(views.start, offset, heap.incrementView);
    Distribute(samplers.start, offset, heap.incrementSampler);
  }

  /** Distinct offsets of a pool give distinct handles when the increment
      is non-zero. */
  lemma ViewHandlesDistinct(pool: DescriptorPool, o1: nat, o2: nat)
    requires o1 < pool.numViews && o2 < pool.numViews && o1 != o2 && pool.incrementView > 0
    ensures pool.ViewCpu(o1) != pool.ViewCpu(o2) && pool.ViewGpu(o1) != pool.ViewGpu(o2)
  {
    if o1 < o2 { MulStrictlyBelow(o1, o2, pool.incrementView); }
    else { MulStrictlyBelow(o2, o1, pool.incrementView); }
  }

  /** Two pools of one heap over view ranges that do not overlap hand out
      disjoint view handles: every handle of the lower pool lies below every
      handle of the upper one. */
  lemma DisjointPoolsDoNotAlias(heap: DescriptorHeap, v1: Range, v2: Range, s1: Range, s2: Range,
                                o1: nat, o2: nat)
    requires Ordered(v1) && Ordered(v2) && Ordered(s1) && Ordered(s2)
    requires v1.end <= v2.start && heap.incrementView > 0
    requires o1 < v1.end - v1.start && o2 < v2.end - v2.start
    ensures CreatePool(heap, v1, s1).ViewCpu(o1).ptr < CreatePool(heap, v2, s2).ViewCpu(o2).ptr
    ensures CreatePool(heap, v1, s1).ViewGpu(o1).ptr < CreatePool(heap, v2, s2).ViewGpu(o2).ptr
  {
    PoolAddressesHeap(heap, v1, s1, o1);
    PoolAddressesHeap(heap, v2, s2, o2);
    MulStrictlyBelow(v1.start + o1, v2.start + o2, heap.incrementView);
  }

  // ---------------------------------------------------------------------
  // View records

  /** A DXGI format code; 0 is DXGI_FORMAT_UNKNOWN. */
  type Format = u32

  const DXGI_FORMAT_UNKNOWN: Format := 0

  /** D3D12_DEFAULT_SHADER_4_COMPONENT_MAPPING. */
  const DEFAULT_SHADER_4_COMPONENT_MAPPING: u32 := 0x1688

  datatype UniformBufferDesc = UniformBufferDesc(elements: Range, stride: nat)

  datatype StorageBufferDesc = StorageBufferDesc(elements: Range, stride: nat)

  datatype ImageViewType = D2

  datatype StorageImageDesc = StorageImageDesc(ty: ImageViewType, format: Format, mipLevel: nat, arrayLayers: Range)

  /** D3D12_BUFFER_SRV with its flags left at NONE. */
  datatype BufferSrv = BufferSrv(firstElement: nat, numElements: u32, structureByteStride: u32)

  datatype SrvDimension = SrvBuffer

  datatype ShaderResourceViewDesc = ShaderResourceViewDesc(
    format: Format,
    viewDimension: SrvDimension,
    shader4ComponentMapping: u32,
    buffer: BufferSrv)

  datatype UavDimension = UavBuffer | UavTexture2D | UavTexture2DArray

  /** The union of D3D12_UNORDERED_ACCESS_VIEW_DESC, one variant per member
      the source writes (buffer flags left at NONE). */
  datatype UavMember =
    | Buffer(firstElement: nat, numElements: u32, structureByteStride: u32, counterOffsetInBytes: nat)
    | Texture2D(mipSlice: u32, planeSlice: u32)
    | Texture2DArray(mipSlice: u32, firstArraySlice: u32, arraySize: u32, planeSlice: u32)

  datatype UnorderedAccessViewDesc = UnorderedAccessViewDesc(
    format: Format,
    viewDimension: UavDimension,
    member: UavMember)

  /** The record create_buffer_uniform_view passes to CreateShaderResourceView. */
  function BufferUniformView(desc: UniformBufferDesc): (v: ShaderResourceViewDesc)
    requires Ordered(desc.elements)
    ensures SrvElements(v).start == desc.elements.start && SrvElements(v).end <= desc.elements.end
  {
    ShaderResourceViewDesc(
      DXGI_FORMAT_UNKNOWN, SrvBuffer, DEFAULT_SHADER_4_COMPONENT_MAPPING,
      BufferSrv(desc.elements.start, AsU32(desc.elements.end - desc.elements.start), AsU32(desc.stride)))
  }

  /** The record create_buffer_storage_view passes to CreateUnorderedAccessView. */
  function BufferStorageView(desc: StorageBufferDesc): (v: UnorderedAccessViewDesc)
    requires Ordered(desc.elements)
    ensures DimensionMatches(v)
    ensures UavRange(v).start == desc.elements.start && UavRange(v).end <= desc.elements.end
  {
    UnorderedAccessViewDesc(
      DXGI_FORMAT_UNKNOWN, UavBuffer,
      Buffer(desc.elements.start, AsU32(desc.elements.end - desc.elements.start), AsU32(desc.stride), 0))
  }

  /** The record create_image_storage_view passes to CreateUnorderedAccessView:
      the layer range 0..1 is a plain 2D view, any other range an array view.
      The array size `end - start` panics on `usize` when end < start. */
  function ImageStorageView(desc: StorageImageDesc): (v: UnorderedAccessViewDesc)
    requires Ordered(desc.arrayLayers)
    ensures DimensionMatches(v)
    ensures UavRange(v).end <= desc.arrayLayers.end
  {
    match desc.ty
    case D2 =>
      if desc.arrayLayers.start == 0 && desc.arrayLayers.end == 1 then
        UnorderedAccessViewDesc(desc.format, UavTexture2D, Texture2D(AsU32(desc.mipLevel), 0))
      else
        UnorderedAccessViewDesc(
          desc.format, UavTexture2DArray,
          Texture2DArray(AsU32(desc.mipLevel), AsU32(desc.arrayLayers.start),
                         AsU32(desc.arrayLayers.end - desc.arrayLayers.start), 0))
  }

  /** The buffer elements a view covers. */
  function SrvElements(v: ShaderResourceViewDesc): Range {
    Range(v.buffer.firstElement, v.buffer.firstElement + v.buffer.numElements)
  }

  /** The buffer elements or image array layers a UAV covers; a plain 2D
      view covers layer 0 only. */
  function UavRange(v: UnorderedAccessViewDesc): Range {
    match v.member
    case Buffer(first, num, _, _) => Range(first, first + num)
    case Texture2D(_, _) => Range(0, 1)
    case Texture2DArray(_, first, size, _) => Range(first, first + size)
  }

  /** The view dimension names the union member that was written. */
  predicate DimensionMatches(v: UnorderedAccessViewDesc) {
    match v.viewDimension
    case UavBuffer => v.member.Buffer?
    case UavTexture2D => v.member.Texture2D?
    case UavTexture2DArray => v.member.Texture2DArray?
  }

  /** A uniform buffer view covers exactly the requested elements with the
      requested stride, as long as count and stride fit in a u32. */
  lemma UniformViewCoversElements(desc: UniformBufferDesc)
    requires Ordered(desc.elements) && desc.elements.end - desc.elements.start < U32_LIMIT
    requires desc.stride < U32_LIMIT
    ensures var v := BufferUniformView(desc);
      SrvElements(v) == desc.elements && v.buffer.structureByteStride == desc.stride
      && v.format == DXGI_FORMAT_UNKNOWN && v.viewDimension == SrvBuffer
  {
  }

  /** A storage buffer view covers exactly the requested elements with the
      requested stride and no counter, as long as count and stride fit in a u32. */
  lemma StorageViewCoversElements(desc: StorageBufferDesc)
    requires Ordered(desc.elements) && desc.elements.end - desc.elements.start < U32_LIMIT
    requires desc.stride < U32_LIMIT
    ensures var v := BufferStorageView(desc);
      && DimensionMatches(v) && v.viewDimension == UavBuffer && v.format == DXGI_FORMAT_UNKNOWN
      && UavRange(v) == desc.elements && v.member.structureByteStride == desc.stride
      && v.member.counterOffsetInBytes == 0
  {
  }

  /** An image view is a plain 2D view exactly when the layers are 0..1; in
      both cases it covers exactly the requested layers at the requested mip
      level, in the requested format, as long as the numbers fit in a u32. */
  lemma ImageViewCoversLayers(desc: StorageImageDesc)
    requires Ordered(desc.arrayLayers) && desc.arrayLayers.end < U32_LIMIT && desc.mipLevel < U32_LIMIT
    ensures var v := ImageStorageView(desc);
      && DimensionMatches(v)
      && (v.viewDimension == UavTexture2D <==> desc.arrayLayers == Range(0, 1))
      && UavRange(v) == desc.arrayLayers
      && v.member.mipSlice == desc.mipLevel
      && v.member.planeSlice == 0
      && v.format == desc.format
  {
  }
}
