/** Root-signature parameters of a pipeline layout. Each layout entry is
    either a block of root constants or a descriptor table; the ranges of
    all tables live in one vector, and each table refers to its own
    consecutive slice of it. Serializing and creating the root signature is
    external and not modelled. */
module Pipeline {
  import opened Common

  /** D3D12_DESCRIPTOR_RANGE_TYPE. */
  datatype DescriptorTy = Srv | Uav | Cbv | Sampler

  /** A `Range<u32>` of shader registers. */
  datatype RegisterRange = RegisterRange(start: u32, end: u32)

  datatype BindingDesc = BindingDesc(ty: DescriptorTy, space: u32, bindings: RegisterRange)

  datatype LayoutDesc =
    | Constant(space: u32, binding: u32, num: u32)
    | Descriptors(bindings: seq<BindingDesc>)

  /** D3D12_DESCRIPTOR_RANGE_OFFSET_APPEND, written `!0` in the source. */
  const OFFSET_APPEND: u32 := U32_MAX

  /** D3D12_DESCRIPTOR_RANGE. */
  datatype DescriptorRange = DescriptorRange(
    rangeType: DescriptorTy,
    numDescriptors: u32,
    baseShaderRegister: u32,
    registerSpace: u32,
    offsetInDescriptorsFromTableStart: u32)

  /** Every parameter the source builds is visible to all stages. */
  datatype ShaderVisibility = All

  /** A root parameter. A descriptor table points into the range vector:
      it holds the index of its first range and the number of its ranges. */
  datatype RootParameter =
    | DescriptorTable(visibility: ShaderVisibility, firstRange: nat, numRanges: nat)
    | Constants(visibility: ShaderVisibility, register: u32, space: u32, num32BitValues: u32)

  /** `bindings.end - bindings.start` on `u32` panics when end < start. */
  predicate EntryWellFormed(d: LayoutDesc) {
    d.Descriptors? ==> forall k :: 0 <= k < |d.bindings| ==> d.bindings[k].bindings.start <= d.bindings[k].bindings.end
  }

  predicate WellFormed(descs: seq<LayoutDesc>) {
    forall i :: 0 <= i < |descs| ==> EntryWellFormed(descs[i])
  }

  /** The ranges one entry contributes: none for constants. */
  function EntryRangeCount(d: LayoutDesc): nat {
    match d
    case Constant(_, _, _) => 0
    case Descriptors(bindings) => |bindings|
  }

  /** `num_ranges`: the total number of bindings over all descriptor tables. */
  function NumRanges(descs: seq<LayoutDesc>): (n: nat)
    ensures n == 0 <==> forall i :: 0 <= i < |descs| ==> EntryRangeCount(descs[i]) == 0
  {
    if descs == [] then 0
    else
      var init := descs[..|descs| - 1];
      assert forall i :: 0 <= i < |init| ==> init[i] == descs[i];
      NumRanges(init) + EntryRangeCount(descs[|descs| - 1])
  }

  /** The descriptor range of one binding, appended after the table's
      previous range. */
  function RangeFor(b: BindingDesc): DescriptorRange
    requires b.bindings.start <= b.bindings.end
  {
    DescriptorRange(b.ty, b.bindings.end - b.bindings.start, b.bindings.start, b.space, OFFSET_APPEND)
  }

  /** The ranges of one entry's bindings, in order. */
  function EntryRanges(d: LayoutDesc): (r: seq<DescriptorRange>)
    requires EntryWellFormed(d)
    ensures |r| == EntryRangeCount(d)
  {
    match d
    case Constant(_, _, _) => []
    case Descriptors(bindings) => seq(|bindings|, k requires 0 <= k < |bindings| => RangeFor(bindings[k]))
  }

  lemma WellFormedPrefix(descs: seq<LayoutDesc>, i: nat)
    requires WellFormed(descs) && i <= |descs|
    ensures WellFormed(descs[..i])
  {
    forall j | 0 <= j < i ensures EntryWellFormed(descs[..i][j]) {
      assert descs[..i][j] == descs[j];
    }
  }

  /** The whole range vector: the entries' ranges, entry after entry. */
  function AllRanges(descs: seq<LayoutDesc>): seq<DescriptorRange>
    requires WellFormed(descs)
  {
    if descs == [] then []
    else
      WellFormedPrefix(descs, |descs| - 1);
      AllRanges(descs[..|descs| - 1]) + EntryRanges(descs[|descs| - 1])
  }

  /** The root parameter of entry i: a table over the ranges after those of
      the earlier entries, or the constants verbatim. */
  function ParameterFor(descs: seq<LayoutDesc>, i: nat): RootParameter
    requires i < |descs|
  {
    match descs[i]
    case Descriptors(bindings) => DescriptorTable(All, NumRanges(descs[..i]), |bindings|)
    case Constant(space, binding, num) => Constants(All, binding, space, num)
  }

  /** Builds the descriptor ranges and the root parameters of a layout, one
      parameter per entry in input order. The range vector is allocated with
      capacity `num_ranges` and never outgrows it, so the slices the tables
      point into are never moved. */
  method CreatePipelineLayout(descs: seq<LayoutDesc>)
    returns (ranges: seq<DescriptorRange>, parameters: seq<RootParameter>)
    requires WellFormed(descs)
    ensures ranges == AllRanges(descs) && |ranges| == NumRanges(descs)
    ensures |parameters| == |descs|
    ensures forall i :: 0 <= i < |descs| ==> parameters[i] == ParameterFor(descs, i)
  {
    var numRanges := NumRanges(descs);
    var lastRange := 0;
    ranges, parameters := [], [];
    for i := 0 to |descs|
      invariant WellFormed(descs[..i])
      invariant lastRange == |ranges| == NumRanges(descs[..i]) <= numRanges
      invariant ranges == AllRanges(descs[..i])
      invariant |parameters| == i
      invariant forall j :: 0 <= j < i ==> parameters[j] == ParameterFor(descs, j)
    {
      WellFormedPrefix(descs, i + 1);
      assert descs[..i + 1][..i] == descs[..i];
      NumRangesBound(descs, i + 1);
      match descs[i] {
        case Descriptors(bindings) =>
          ranges := PushRanges(ranges, bindings);
          var curRange := |ranges|;
          parameters := parameters + [DescriptorTable(All, lastRange, curRange - lastRange)];
          lastRange := curRange;
        case Constant(space, binding, num) =>
          parameters := parameters + [Constants(All, binding, space, num)];
      }
    }
    assert descs[..|descs|] == descs;
  }

  /** The loop over one table's bindings: appends one range per binding. */
  method PushRanges(ranges: seq<DescriptorRange>, bindings: seq<BindingDesc>)
    returns (ranges': seq<DescriptorRange>)
    requires EntryWellFormed(Descriptors(bindings))
    ensures ranges' == ranges + EntryRanges(Descriptors(bindings))
  {
    ranges' := ranges;
    for k := 0 to |bindings|
      invariant ranges' == ranges + EntryRanges(Descriptors(bindings[..k]))
    {
      var binding := bindings[k];
      ranges' := ranges' + [DescriptorRange(binding.ty, binding.bindings.end - binding.bindings.start,
                                            binding.bindings.start, binding.space, OFFSET_APPEND)];
    }
    assert bindings[..|bindings|] == bindings;
  }

  // ---------------------------------------------------------------------
  // Properties of the layout

  lemma {:induction false} NumRangesAppend(a: seq<LayoutDesc>, b: seq<LayoutDesc>)
    ensures NumRanges(a + b) == NumRanges(a) + NumRanges(b)
    decreases |b|
  {
    if b == [] {
      assert a + b == a;
    } else {
      var b' := b[..|b| - 1];
      var ab := a + b;
      assert ab[..|ab| - 1] == a + b';
      NumRangesAppend(a, b');
    }
  }

  /** The ranges of a prefix never exceed `num_ranges`. */
  lemma NumRangesBound(descs: seq<LayoutDesc>, i: nat)
    requires i <= |descs|
    ensures NumRanges(descs[..i]) <= NumRanges(descs)
  {
    assert descs[..i] + descs[i..] == descs;
    NumRangesAppend(descs[..i], descs[i..]);
  }

  /** Only descriptor tables contribute ranges: a run of constant entries
      adds none. */
  lemma {:induction false} ConstantsAddNoRanges(descs: seq<LayoutDesc>)
    requires forall i :: 0 <= i < |descs| ==> descs[i].Constant?
    ensures NumRanges(descs) == 0
    decreases |descs|
  {
    if descs != [] {
      ConstantsAddNoRanges(descs[..|descs| - 1]);
    }
  }

  lemma WellFormedSplit(a: seq<LayoutDesc>, b: seq<LayoutDesc>)
    requires WellFormed(a + b)
    ensures WellFormed(a) && WellFormed(b)
  {
    forall j | 0 <= j < |a| ensures EntryWellFormed(a[j]) {
      assert (a + b)[j] == a[j];
    }
    forall j | 0 <= j < |b| ensures EntryWellFormed(b[j]) {
      assert (a + b)[|a| + j] == b[j];
    }
  }

  lemma {:induction false} AllRangesAppend(a: seq<LayoutDesc>, b: seq<LayoutDesc>)
    requires WellFormed(a + b)
    ensures WellFormed(a) && WellFormed(b)
    ensures AllRanges(a + b) == AllRanges(a) + AllRanges(b)
    decreases |b|
  {
    WellFormedSplit(a, b);
    if b == [] {
      assert a + b == a;
    } else {
      var b' := b[..|b| - 1];
      var ab := a + b;
      assert ab[..|ab| - 1] == a + b';
      assert ab[|ab| - 1] == b[|b| - 1];
      WellFormedPrefix(ab, |ab| - 1);
      AllRangesAppend(a, b');
      assert AllRanges(ab) == AllRanges(a + b') + EntryRanges(b[|b| - 1]);
      assert AllRanges(b) == AllRanges(b') + EntryRanges(b[|b| - 1]);
    }
  }

  /** The table of entry i points at exactly that entry's ranges: its
      slice [firstRange, firstRange + numRanges) lies inside the range
      vector and holds the entry's ranges, one per binding. */
  lemma TableSlice(descs: seq<LayoutDesc>, i: nat)
    requires WellFormed(descs) && i < |descs| && descs[i].Descriptors?
    ensures var p, all := ParameterFor(descs, i), AllRanges(descs);
      && p.numRanges == |descs[i].bindings|
      && p.firstRange + p.numRanges <= |all|
      && all[p.firstRange .. p.firstRange + p.numRanges] == EntryRanges(descs[i])
  {
    var before, entry, after := descs[..i], [descs[i]], descs[i + 1..];
    assert descs == before + entry + after;
    AllRangesAppend(before + entry, after);
    AllRangesAppend(before, entry);
    RangesLength(before);
    assert entry[..0] == [];
    assert AllRanges(entry) == EntryRanges(descs[i]);
  }

  /** Range k of the table of entry i carries binding k's register count,
      base register and space, and the append offset. */
  lemma TableRange(descs: seq<LayoutDesc>, i: nat, k: nat)
    requires WellFormed(descs) && i < |descs| && descs[i].Descriptors? && k < |descs[i].bindings|
    ensures var p, all, b := ParameterFor(descs, i), AllRanges(descs), descs[i].bindings[k];
      && p.firstRange + k < |all|
      && all[p.firstRange + k].rangeType == b.ty
      && all[p.firstRange + k].numDescriptors == b.bindings.end - b.bindings.start
      && all[p.firstRange + k].baseShaderRegister == b.bindings.start
      && all[p.firstRange + k].registerSpace == b.space
      && all[p.firstRange + k].offsetInDescriptorsFromTableStart == OFFSET_APPEND
  {
    TableSlice(descs, i);
    var p := ParameterFor(descs, i);
    assert AllRanges(descs)[p.firstRange + k] == AllRanges(descs)[p.firstRange .. p.firstRange + p.numRanges][k];
  }

  lemma {:induction false} RangesLength(descs: seq<LayoutDesc>)
    requires WellFormed(descs)
    ensures |AllRanges(descs)| == NumRanges(descs)
    decreases |descs|
  {
    if descs != [] {
      WellFormedPrefix(descs, |descs| - 1);
      RangesLength(descs[..|descs| - 1]);
    }
  }

  /** Successive tables are adjacent: when entries i < j are tables and
      only constants lie between them, table j starts where table i ends. */
  lemma TablesAdjacent(descs: seq<LayoutDesc>, i: nat, j: nat)
    requires i < j < |descs| && descs[i].Descriptors? && descs[j].Descriptors?
    requires forall m :: i < m < j ==> descs[m].Constant?
    ensures ParameterFor(descs, j).firstRange
         == ParameterFor(descs, i).firstRange + ParameterFor(descs, i).numRanges
  {
    var between := descs[i + 1..j];
    assert descs[..j] == descs[..i] + [descs[i]] + between;
    NumRangesAppend(descs[..i] + [descs[i]], between);
    NumRangesAppend(descs[..i], [descs[i]]);
    ConstantsAddNoRanges(between);
    assert [descs[i]][..0] == [];
  }
}
