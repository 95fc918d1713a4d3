/**
 * Bound storage buffers: the fixed decoration recipe AddBuffer applies to a
 * kernel input or output, and the global-allocation metadata buffer
 * AddGAMetadata creates at binding 0.
 */
module Buffers {
  import opened Spirv
  import opened Uint32
  import opened ShaderModules

  /** Byte offsets of the four uint32 members of the metadata record: each packed offset plus 4. */
  const MetadataOffsets: seq<nat> := [4, 8, 12, 16]

  /** Array stride of the metadata array: four members of four bytes. */
  const MetadataStride: nat := 4 * 4

  /**
   * The struct a buffer variable refers to: `v` is an unnamed, non-built-in
   * Uniform variable whose type is a Uniform pointer to that struct.
   */
  ghost function BlockOf(g: seq<Decl>, v: nat): Option<nat>
  {
    match Lookup(g, v)
    case Some(Variable(_, ptr, Uniform, None, None)) =>
      (match Lookup(g, ptr)
       case Some(TypePointer(_, Uniform, st)) => Some(st)
       case _ => None)
    case _ => None
  }

  /** `v` is a buffer variable in descriptor set 0 at binding `binding`. */
  ghost predicate IsBufferVariable(g: seq<Decl>, ds: seq<Decoration>, v: nat, binding: nat)
  {
    && BlockOf(g, v).Some?
    && Decoration(v, None, DescriptorSet, [0]) in ds
    && Decoration(v, None, Binding, [binding]) in ds
  }

  /**
   * `st` is a BufferBlock struct whose single member, at offset 0, is a
   * runtime array of `elem` with array stride `stride`.
   */
  ghost predicate IsBufferBlock(g: seq<Decl>, ds: seq<Decoration>, st: nat, elem: nat, stride: nat)
  {
    match Lookup(g, st)
    case Some(TypeStruct(_, ms)) =>
      && |ms| == 1
      && Lookup(g, ms[0]) == Some(TypeRuntimeArray(ms[0], elem))
      && Decoration(ms[0], None, ArrayStride, [stride]) in ds
      && Decoration(st, None, BufferBlock, []) in ds
      && Decoration(st, Some(0), Offset, [0]) in ds
    case _ => false
  }

  /** `v` is the buffer AddBuffer makes for elements of type `elem`. */
  ghost predicate IsBuffer(g: seq<Decl>, ds: seq<Decoration>, v: nat, elem: nat, binding: nat, stride: nat)
  {
    IsBufferVariable(g, ds, v, binding) && IsBufferBlock(g, ds, BlockOf(g, v).value, elem, stride)
  }

  /** The record {element size, x size, y size, reserved} of 32-bit unsigned members at the shifted offsets. */
  ghost predicate IsMetadataRecord(g: seq<Decl>, ds: seq<Decoration>, rec: nat)
  {
    match Lookup(g, rec)
    case Some(TypeStruct(_, ms)) =>
      && |ms| == 4
      && ms[1] == ms[0] && ms[2] == ms[0] && ms[3] == ms[0]
      && Lookup(g, ms[0]) == Some(TypeInt(ms[0], 32, false))
      && Decoration(rec, Some(0), Offset, [MetadataOffsets[0]]) in ds
      && Decoration(rec, Some(1), Offset, [MetadataOffsets[1]]) in ds
      && Decoration(rec, Some(2), Offset, [MetadataOffsets[2]]) in ds
      && Decoration(rec, Some(3), Offset, [MetadataOffsets[3]]) in ds
    case _ => false
  }

  /**
   * `st` is a BufferBlock struct (without a member offset) holding a runtime
   * array of metadata records with array stride 16.
   */
  ghost predicate IsMetadataBlock(g: seq<Decl>, ds: seq<Decoration>, st: nat)
  {
    match Lookup(g, st)
    case Some(TypeStruct(_, ms)) =>
      && |ms| == 1
      && Decoration(st, None, BufferBlock, []) in ds
      && Decoration(ms[0], None, ArrayStride, [MetadataStride]) in ds
      && (match Lookup(g, ms[0])
          case Some(TypeRuntimeArray(_, rec)) => IsMetadataRecord(g, ds, rec)
          case _ => false)
    case _ => false
  }

  /** `v` is the metadata buffer, at descriptor set 0 and binding 0. */
  ghost predicate IsMetadataBuffer(g: seq<Decl>, ds: seq<Decoration>, v: nat)
  {
    IsBufferVariable(g, ds, v, 0) && IsMetadataBlock(g, ds, BlockOf(g, v).value)
  }

  // Appending declarations and decorations keeps every fact above.

  lemma BlockOfGrow(g: seq<Decl>, g': seq<Decl>, v: nat)
    requires g <= g' && BlockOf(g, v).Some?
    ensures BlockOf(g', v) == BlockOf(g, v)
  {
    LookupPrefix(g, g', v);
    LookupPrefix(g, g', Lookup(g, v).value.typ);
  }

  lemma IsBufferBlockGrow(g: seq<Decl>, g': seq<Decl>, ds: seq<Decoration>, ds': seq<Decoration>, st: nat, elem: nat, stride: nat)
    requires g <= g' && ds <= ds'
    requires IsBufferBlock(g, ds, st, elem, stride)
    ensures IsBufferBlock(g', ds', st, elem, stride)
  {
    LookupPrefix(g, g', st);
    LookupPrefix(g, g', Lookup(g, st).value.members[0]);
    assert ds' == ds + ds'[|ds|..];
  }

  lemma IsBufferGrow(g: seq<Decl>, g': seq<Decl>, ds: seq<Decoration>, ds': seq<Decoration>, v: nat, elem: nat, binding: nat, stride: nat)
    requires g <= g' && ds <= ds'
    requires IsBuffer(g, ds, v, elem, binding, stride)
    ensures IsBuffer(g', ds', v, elem, binding, stride)
  {
    BlockOfGrow(g, g', v);
    IsBufferBlockGrow(g, g', ds, ds', BlockOf(g, v).value, elem, stride);
    assert ds' == ds + ds'[|ds|..];
  }

  lemma IsMetadataRecordGrow(g: seq<Decl>, g': seq<Decl>, ds: seq<Decoration>, ds': seq<Decoration>, rec: nat)
    requires g <= g' && ds <= ds'
    requires IsMetadataRecord(g, ds, rec)
    ensures IsMetadataRecord(g', ds', rec)
  {
    LookupPrefix(g, g', rec);
    LookupPrefix(g, g', Lookup(g, rec).value.members[0]);
    assert ds' == ds + ds'[|ds|..];
  }

  lemma IsMetadataBlockGrow(g: seq<Decl>, g': seq<Decl>, ds: seq<Decoration>, ds': seq<Decoration>, st: nat)
    requires g <= g' && ds <= ds'
    requires IsMetadataBlock(g, ds, st)
    ensures IsMetadataBlock(g', ds', st)
  {
    var arr := Lookup(g, st).value.members[0];
    LookupPrefix(g, g', st);
    LookupPrefix(g, g', arr);
    IsMetadataRecordGrow(g, g', ds, ds', Lookup(g, arr).value.elem);
    assert ds' == ds + ds'[|ds|..];
  }

  lemma IsMetadataBufferGrow(g: seq<Decl>, g': seq<Decl>, ds: seq<Decoration>, ds': seq<Decoration>, v: nat)
    requires g <= g' && ds <= ds'
    requires IsMetadataBuffer(g, ds, v)
    ensures IsMetadataBuffer(g', ds', v)
  {
    BlockOfGrow(g, g', v);
    IsMetadataBlockGrow(g, g', ds, ds', BlockOf(g, v).value);
    assert ds' == ds + ds'[|ds|..];
  }

  /** The first member of struct `st`: the runtime array of a buffer's block. */
  ghost function MemberArray(g: seq<Decl>, st: nat): nat
  {
    match Lookup(g, st)
    case Some(TypeStruct(_, ms)) => if |ms| > 0 then ms[0] else 0
    case _ => 0
  }

  /** The element type of runtime array `arr`. */
  ghost function ArrayElem(g: seq<Decl>, arr: nat): nat
  {
    match Lookup(g, arr)
    case Some(TypeRuntimeArray(_, e)) => e
    case _ => 0
  }

  /** The runtime array of buffer variable `v`'s block. */
  ghost function ArrayOf(g: seq<Decl>, v: nat): nat
  {
    match BlockOf(g, v)
    case Some(st) => MemberArray(g, st)
    case None => 0
  }

  /** The decorations of a buffer's type: the array stride, BufferBlock and the member's offset 0. */
  function BufferTypeDecorations(arr: nat, st: nat, stride: nat): seq<Decoration>
  {
    [Decoration(arr, None, ArrayStride, [stride]), Decoration(st, None, BufferBlock, []), Decoration(st, Some(0), Offset, [0])]
  }

  /** The decorations of a buffer variable: descriptor set 0 and its binding. */
  function VariableDecorations(v: nat, binding: nat): seq<Decoration>
  {
    [Decoration(v, None, DescriptorSet, [0]), Decoration(v, None, Binding, [binding])]
  }

  /** The four member offsets of the metadata record `rec`. */
  function RecordDecorations(rec: nat): seq<Decoration>
  {
    [Decoration(rec, Some(0), Offset, [MetadataOffsets[0]]),
     Decoration(rec, Some(1), Offset, [MetadataOffsets[1]]),
     Decoration(rec, Some(2), Offset, [MetadataOffsets[2]]),
     Decoration(rec, Some(3), Offset, [MetadataOffsets[3]])]
  }

  /** The decorations of the metadata buffer's type: the record offsets, the array stride 16 and BufferBlock. */
  function MetadataTypeDecorations(rec: nat, arr: nat, st: nat): seq<Decoration>
  {
    RecordDecorations(rec) + [Decoration(arr, None, ArrayStride, [MetadataStride]), Decoration(st, None, BufferBlock, [])]
  }

  /** The Binding decorations of `ds`, in the order they were added. */
  function Bindings(ds: seq<Decoration>): (r: seq<Decoration>)
    ensures |r| <= |ds|
  {
    if ds == [] then []
    else Bindings(ds[..|ds| - 1]) + (if ds[|ds| - 1].kind == Binding then [ds[|ds| - 1]] else [])
  }

  /** Filtering the Binding decorations distributes over appending. */
  lemma {:induction false} BindingsAppend(a: seq<Decoration>, b: seq<Decoration>)
    ensures Bindings(a + b) == Bindings(a) + Bindings(b)
    decreases |b|
  {
    if b == [] {
      assert a + b == a;
    } else {
      var n := |b| - 1;
      assert (a + b)[..|a + b| - 1] == a + b[..n];
      BindingsAppend(a, b[..n]);
    }
  }

  /** A sequence without Binding decorations filters to nothing. */
  lemma {:induction false} BindingsNone(ds: seq<Decoration>)
    requires forall i :: 0 <= i < |ds| ==> ds[i].kind != Binding
    ensures Bindings(ds) == []
  {
    if ds != [] {
      BindingsNone(ds[..|ds| - 1]);
    }
  }

  /** Type decorations followed by a variable's two: the only Binding added is the variable's. */
  lemma VariableBindings(ds: seq<Decoration>, types: seq<Decoration>, v: nat, binding: nat)
    requires forall i :: 0 <= i < |types| ==> types[i].kind != Binding
    ensures Bindings(ds + types + VariableDecorations(v, binding)) == Bindings(ds) + [Decoration(v, None, Binding, [binding])]
  {
    var others := types + [Decoration(v, None, DescriptorSet, [0])];
    var last := Decoration(v, None, Binding, [binding]);
    var x := ds + others;
    assert ds + types + VariableDecorations(v, binding) == x + [last];
    assert (x + [last])[..|x|] == x;
    BindingsNone(others);
    BindingsAppend(ds, others);
  }

  /** getRuntimeArrayType(elem) decorated with ArrayStride `stride`. */
  method ArrayType(m: ShaderModule, elem: nat, stride: nat) returns (arr: nat)
    requires m.Valid()
    modifies m`globals, m`nextId, m`decorations
    ensures m.Valid()
    ensures old(m.globals) <= m.globals && old(m.nextId) <= m.nextId
    ensures m.decorations == old(m.decorations) + [Decoration(arr, None, ArrayStride, [stride])]
    ensures Lookup(m.globals, arr) == Some(TypeRuntimeArray(arr, elem))
  {
    arr := m.Obtain(TypeRuntimeArray(0, elem));
    m.Decorate(arr, None, ArrayStride, [stride]);
  }

  /** getStructType(arr) decorated BufferBlock. */
  method BlockStruct(m: ShaderModule, arr: nat) returns (st: nat)
    requires m.Valid()
    modifies m`globals, m`nextId, m`decorations
    ensures m.Valid()
    ensures old(m.globals) <= m.globals && old(m.nextId) <= m.nextId
    ensures m.decorations == old(m.decorations) + [Decoration(st, None, BufferBlock, [])]
    ensures Lookup(m.globals, st) == Some(TypeStruct(st, [arr]))
  {
    st := m.Obtain(TypeStruct(0, [arr]));
    m.Decorate(st, None, BufferBlock, []);
  }

  /** The runtime array and its BufferBlock struct, with the member at offset 0. */
  method BufferBlockType(m: ShaderModule, elem: nat, stride: nat) returns (st: nat)
    requires m.Valid()
    modifies m`globals, m`nextId, m`decorations
    ensures m.Valid()
    ensures old(m.globals) <= m.globals && old(m.nextId) <= m.nextId
    ensures Lookup(m.globals, st).Some? && Lookup(m.globals, st).value.TypeStruct? && |Lookup(m.globals, st).value.members| == 1
    ensures m.decorations == old(m.decorations) + BufferTypeDecorations(Lookup(m.globals, st).value.members[0], st, stride)
    ensures IsBufferBlock(m.globals, m.decorations, st, elem, stride)
  {
    var arr := ArrayType(m, elem, stride);
    ghost var g1 := m.globals;
    st := BlockStruct(m, arr);
    m.Decorate(st, Some(0), Offset, [0]);
    LookupPrefix(g1, m.globals, arr);
  }

  /**
   * MakeVariable of a Uniform pointer to `st`, decorated with descriptor set 0
   * and binding `binding`, then addVariable.
   */
  method BufferVariable(m: ShaderModule, st: nat, binding: nat) returns (v: nat)
    requires m.Valid()
    modifies m`globals, m`nextId, m`decorations
    ensures m.Valid()
    ensures old(m.globals) <= m.globals && old(m.nextId) <= v < m.nextId
    ensures m.decorations == old(m.decorations) + VariableDecorations(v, binding)
    ensures BlockOf(m.globals, v) == Some(st)
  {
    var ptr := m.Obtain(TypePointer(0, Uniform, st));
    ghost var g1 := m.globals;
    v := m.NewVariable(ptr, Uniform);
    m.Decorate(v, None, DescriptorSet, [0]);
    m.Decorate(v, None, Binding, [binding]);
    LookupPrefix(g1, m.globals, ptr);
  }

  /**
   * AddBuffer: a fresh Uniform variable of a buffer type for `elem`, with
   * array stride getSize(elem) truncated to 32 bits, descriptor set 0 and
   * binding `binding`; five decorations and nothing else are added.
   */
  method AddBuffer(m: ShaderModule, elem: nat, binding: nat, size: nat -> nat) returns (v: nat)
    requires m.Valid()
    modifies m`globals, m`nextId, m`decorations
    ensures m.Valid()
    ensures old(m.globals) <= m.globals && old(m.nextId) <= v < m.nextId
    ensures IsBuffer(m.globals, m.decorations, v, elem, binding, size(elem) % U32)
    ensures m.decorations == old(m.decorations)
      + BufferTypeDecorations(ArrayOf(m.globals, v), BlockOf(m.globals, v).value, size(elem) % U32)
      + VariableDecorations(v, binding)
    ensures Bindings(m.decorations) == Bindings(old(m.decorations)) + [Decoration(v, None, Binding, [binding])]
  {
    ghost var ds0 := m.decorations;
    var st := BufferBlockType(m, elem, size(elem) % U32);
    ghost var g1, ds1 := m.globals, m.decorations;
    ghost var arr := Lookup(g1, st).value.members[0];
    v := BufferVariable(m, st, binding);
    IsBufferBlockGrow(g1, m.globals, ds1, m.decorations, st, elem, size(elem) % U32);
    LookupPrefix(g1, m.globals, st);
    assert ArrayOf(m.globals, v) == arr;
    VariableBindings(ds0, BufferTypeDecorations(arr, st, size(elem) % U32), v, binding);
  }

  /** The four member offsets of the metadata record. */
  method DecorateRecord(m: ShaderModule, rec: nat)
    modifies m`decorations
    ensures m.decorations == old(m.decorations) + RecordDecorations(rec)
  {
    m.Decorate(rec, Some(0), Offset, [4]);
    m.Decorate(rec, Some(1), Offset, [8]);
    m.Decorate(rec, Some(2), Offset, [12]);
    m.Decorate(rec, Some(3), Offset, [16]);
  }

  method MetadataRecord(m: ShaderModule) returns (rec: nat)
    requires m.Valid()
    modifies m`globals, m`nextId, m`decorations
    ensures m.Valid()
    ensures old(m.globals) <= m.globals && old(m.nextId) <= m.nextId
    ensures m.decorations == old(m.decorations) + RecordDecorations(rec)
    ensures IsMetadataRecord(m.globals, m.decorations, rec)
  {
    var u := m.Obtain(TypeInt(0, 32, false));
    ghost var g1 := m.globals;
    rec := m.Obtain(TypeStruct(0, [u, u, u, u]));
    LookupPrefix(g1, m.globals, u);
    DecorateRecord(m, rec);
  }

  method MetadataBlockType(m: ShaderModule) returns (st: nat)
    requires m.Valid()
    modifies m`globals, m`nextId, m`decorations
    ensures m.Valid()
    ensures old(m.globals) <= m.globals && old(m.nextId) <= m.nextId
    ensures IsMetadataBlock(m.globals, m.decorations, st)
    ensures m.decorations == old(m.decorations)
      + MetadataTypeDecorations(ArrayElem(m.globals, MemberArray(m.globals, st)), MemberArray(m.globals, st), st)
  {
    ghost var ds0 := m.decorations;
    var rec := MetadataRecord(m);
    ghost var g1, ds1 := m.globals, m.decorations;
    var arr := ArrayType(m, rec, MetadataStride);
    ghost var g2 := m.globals;
    st := BlockStruct(m, arr);
    LookupPrefix(g2, m.globals, arr);
    MetadataBlockOk(g1, m.globals, ds0, m.decorations, rec, arr, st);
  }

  /** The facts MetadataBlockType promises, from the three declarations and the decorations appended. */
  lemma MetadataBlockOk(g1: seq<Decl>, g: seq<Decl>, ds0: seq<Decoration>, ds: seq<Decoration>, rec: nat, arr: nat, st: nat)
    requires g1 <= g && IsMetadataRecord(g1, ds0 + RecordDecorations(rec), rec)
    requires Lookup(g, arr) == Some(TypeRuntimeArray(arr, rec)) && Lookup(g, st) == Some(TypeStruct(st, [arr]))
    requires ds == ds0 + RecordDecorations(rec) + [Decoration(arr, None, ArrayStride, [MetadataStride])] + [Decoration(st, None, BufferBlock, [])]
    ensures IsMetadataBlock(g, ds, st)
    ensures MemberArray(g, st) == arr && ArrayElem(g, arr) == rec
    ensures ds == ds0 + MetadataTypeDecorations(rec, arr, st)
  {
    var ds1 := ds0 + RecordDecorations(rec);
    assert ds == ds1 + [Decoration(arr, None, ArrayStride, [MetadataStride]), Decoration(st, None, BufferBlock, [])];
    IsMetadataRecordGrow(g1, g, ds1, ds, rec);
  }

  /** The facts AddGAMetadata promises, from the metadata block type and the variable's two decorations. */
  lemma MetadataBufferOk(g1: seq<Decl>, g: seq<Decl>, ds0: seq<Decoration>, ds1: seq<Decoration>, ds: seq<Decoration>, st: nat, v: nat)
    requires g1 <= g && IsMetadataBlock(g1, ds1, st)
    requires ds1 == ds0 + MetadataTypeDecorations(ArrayElem(g1, MemberArray(g1, st)), MemberArray(g1, st), st)
    requires BlockOf(g, v) == Some(st) && ds == ds1 + VariableDecorations(v, 0)
    ensures IsMetadataBuffer(g, ds, v)
    ensures ds == ds0 + MetadataTypeDecorations(ArrayElem(g, ArrayOf(g, v)), ArrayOf(g, v), st) + VariableDecorations(v, 0)
    ensures Bindings(ds) == Bindings(ds0) + [Decoration(v, None, Binding, [0])]
  {
    var arr := MemberArray(g1, st);
    var rec := ArrayElem(g1, arr);
    IsMetadataBlockGrow(g1, g, ds1, ds, st);
    LookupPrefix(g1, g, st);
    LookupPrefix(g1, g, arr);
    assert ArrayOf(g, v) == arr && ArrayElem(g, arr) == rec;
    VariableBindings(ds0, MetadataTypeDecorations(rec, arr, st), v, 0);
  }

  /**
   * AddGAMetadata: the metadata buffer variable, at descriptor set 0 and
   * binding 0, handed on to the lowering of the allocation accessors.
   */
  method AddGAMetadata(m: ShaderModule) returns (v: nat)
    requires m.Valid()
    modifies m`globals, m`nextId, m`decorations
    ensures m.Valid()
    ensures old(m.globals) <= m.globals && old(m.nextId) <= v < m.nextId
    ensures IsMetadataBuffer(m.globals, m.decorations, v)
    ensures m.decorations == old(m.decorations)
      + MetadataTypeDecorations(ArrayElem(m.globals, ArrayOf(m.globals, v)), ArrayOf(m.globals, v), BlockOf(m.globals, v).value)
      + VariableDecorations(v, 0)
    ensures Bindings(m.decorations) == Bindings(old(m.decorations)) + [Decoration(v, None, Binding, [0])]
  {
    ghost var ds0 := m.decorations;
    var st := MetadataBlockType(m);
    ghost var g1, ds1 := m.globals, m.decorations;
    v := BufferVariable(m, st, 0);
    MetadataBufferOk(g1, m.globals, ds0, ds1, m.decorations, st, v);
  }
}
