/**
 * DecorateGlobalBuffer: the script's global variables live in one uniform
 * block named "__GPUBlock". The pass binds it at descriptor set 0, binding
 * 0, copies the byte offsets of its members from the LLVM data layout, and
 * binds the script's rs_allocation variables from binding 3 upwards.
 */
module GlobalBuffer {
  import opened Spirv
  import opened Uint32
  import opened ShaderModules

  const GlobalBlockName: string := "__GPUBlock"

  /** Bindings 0 (global block), 1 (output) and 2.. (inputs) come first; allocations follow from here. */
  const FirstAllocationBinding: nat := 3

  /**
   * A global of the LLVM module: its name and, when its type is a pointer to
   * a struct, the byte offset of each struct element under the module's
   * data layout.
   */
  datatype LlvmGlobal = LlvmGlobal(name: string, layout: Option<seq<nat>>)

  /**
   * What the pass reads from the LLVM module: its globals in order, and the
   * names of the rs_allocation variables, or None when extracting them fails.
   */
  datatype LlvmModule = LlvmModule(globals: seq<LlvmGlobal>, allocations: Option<seq<string>>)

  /** The first global with the given name (std::find_if). */
  function FindGlobal(gs: seq<LlvmGlobal>, name: string): (r: Option<nat>)
    ensures r.Some? ==> r.value < |gs| && gs[r.value].name == name && forall j :: 0 <= j < r.value ==> gs[j].name != name
    ensures r.None? ==> forall j :: 0 <= j < |gs| ==> gs[j].name != name
  {
    if gs == [] then None
    else if gs[0].name == name then Some(0)
    else match FindGlobal(gs[1..], name)
      case Some(i) => Some(i + 1)
      case None => None
  }

  /** How many of the allocation names, from the first, resolve to variables of the global section. */
  function FoundPrefix(g: seq<Decl>, names: seq<string>): (k: nat)
    ensures k <= |names|
    ensures forall j :: 0 <= j < k ==> LookupByName(g, names[j]).Some?
    ensures k < |names| ==> LookupByName(g, names[k]).None?
  {
    if names == [] || LookupByName(g, names[0]).None? then 0
    else 1 + FoundPrefix(g, names[1..])
  }

  /** An OpMemberDecorate Offset for each struct element, in order. */
  function OffsetDecorations(st: nat, layout: seq<nat>): (r: seq<Decoration>)
    ensures |r| == |layout|
  {
    if layout == [] then []
    else
      var n := |layout| - 1;
      OffsetDecorations(st, layout[..n]) + [Decoration(st, Some(n), Offset, [layout[n] % U32])]
  }

  /** DescriptorSet 0 and Binding 3 + j for the j-th allocation variable. */
  function BindingDecorations(g: seq<Decl>, names: seq<string>): (r: seq<Decoration>)
    requires forall j :: 0 <= j < |names| ==> LookupByName(g, names[j]).Some?
    ensures |r| == 2 * |names|
  {
    if names == [] then []
    else
      var n := |names| - 1;
      var v := LookupByName(g, names[n]).value;
      BindingDecorations(g, names[..n])
        + [Decoration(v, None, DescriptorSet, [0]), Decoration(v, None, Binding, [(FirstAllocationBinding + n) % U32])]
  }

  /** What the source takes for granted of "__GPUBlock": its pointer type points at the block's struct. */
  ghost predicate BlockTyped(g: seq<Decl>)
  {
    LookupByName(g, GlobalBlockName).Some? ==> VariablePointee(g, LookupByName(g, GlobalBlockName).value).Some?
  }

  /** The three decorations of the block itself: set 0, binding 0, and BufferBlock on its struct. */
  function BlockDecorations(v: nat, st: nat): seq<Decoration>
  {
    [Decoration(v, None, DescriptorSet, [0]), Decoration(v, None, Binding, [0]), Decoration(st, None, BufferBlock, [])]
  }

  /**
   * The result of DecorateGlobalBuffer and the decorations it appends, along
   * each of its early returns.
   */
  function GlobalBufferSpec(g: seq<Decl>, lm: LlvmModule): (r: (bool, seq<Decoration>))
    requires BlockTyped(g)
    ensures !r.0 <==>
      && LookupByName(g, GlobalBlockName).Some?
      && FindGlobal(lm.globals, GlobalBlockName).Some?
      && var layout := lm.globals[FindGlobal(lm.globals, GlobalBlockName).value].layout;
      || layout.None?
      || (lm.allocations.Some? && exists j :: 0 <= j < |lm.allocations.value| && LookupByName(g, lm.allocations.value[j]).None?)
  {
    match LookupByName(g, GlobalBlockName)
    case None => (true, [])
    case Some(v) =>
      var head := BlockDecorations(v, VariablePointee(g, v).value);
      match FindGlobal(lm.globals, GlobalBlockName)
      case None => (true, head)
      case Some(i) =>
        match lm.globals[i].layout
        case None => (false, head)
        case Some(layout) =>
          var withOffsets := head + OffsetDecorations(VariablePointee(g, v).value, layout);
          match lm.allocations
          case None => (true, withOffsets)
          case Some(names) =>
            var k := FoundPrefix(g, names);
            (k == |names|, withOffsets + BindingDecorations(g, names[..k]))
  }

  lemma {:induction false} OffsetDecorationsAt(st: nat, layout: seq<nat>, i: nat)
    requires i < |layout|
    ensures OffsetDecorations(st, layout)[i] == Decoration(st, Some(i), Offset, [layout[i] % U32])
    decreases |layout|
  {
    var n := |layout| - 1;
    if i < n {
      OffsetDecorationsAt(st, layout[..n], i);
      assert layout[..n][i] == layout[i];
    }
  }

  lemma {:induction false} BindingDecorationsAt(g: seq<Decl>, names: seq<string>, j: nat)
    requires forall i :: 0 <= i < |names| ==> LookupByName(g, names[i]).Some?
    requires j < |names|
    ensures BindingDecorations(g, names)[2 * j] == Decoration(LookupByName(g, names[j]).value, None, DescriptorSet, [0])
    ensures BindingDecorations(g, names)[2 * j + 1]
         == Decoration(LookupByName(g, names[j]).value, None, Binding, [(FirstAllocationBinding + j) % U32])
    decreases |names|
  {
    var n := |names| - 1;
    if j < n {
      BindingDecorationsAt(g, names[..n], j);
      assert names[..n][j] == names[j];
    }
  }

  /**
   * When the block is present on both sides and its type is a struct, member
   * i of the block's struct gets the data layout's offset of element i
   * (truncated to 32 bits), right after the block's own three decorations.
   */
  lemma GlobalBufferOffsets(g: seq<Decl>, lm: LlvmModule, i: nat)
    requires BlockTyped(g) && LookupByName(g, GlobalBlockName).Some? && FindGlobal(lm.globals, GlobalBlockName).Some?
    requires var layout := lm.globals[FindGlobal(lm.globals, GlobalBlockName).value].layout;
      layout.Some? && i < |layout.value|
    ensures var layout := lm.globals[FindGlobal(lm.globals, GlobalBlockName).value].layout.value;
      var st := VariablePointee(g, LookupByName(g, GlobalBlockName).value).value;
      var ds := GlobalBufferSpec(g, lm).1;
      3 + i < |ds| && ds[3 + i] == Decoration(st, Some(i), Offset, [layout[i] % U32])
  {
    var layout := lm.globals[FindGlobal(lm.globals, GlobalBlockName).value].layout.value;
    var st := VariablePointee(g, LookupByName(g, GlobalBlockName).value).value;
    OffsetDecorationsAt(st, layout, i);
  }

  /**
   * The j-th allocation variable, when it and every one before it resolve,
   * is bound at descriptor set 0, binding 3 + j, after the block's offsets.
   */
  lemma GlobalBufferBindings(g: seq<Decl>, lm: LlvmModule, j: nat)
    requires BlockTyped(g) && LookupByName(g, GlobalBlockName).Some? && FindGlobal(lm.globals, GlobalBlockName).Some?
    requires lm.globals[FindGlobal(lm.globals, GlobalBlockName).value].layout.Some?
    requires lm.allocations.Some? && j < |lm.allocations.value|
    requires forall i :: 0 <= i <= j ==> LookupByName(g, lm.allocations.value[i]).Some?
    ensures var n := |lm.globals[FindGlobal(lm.globals, GlobalBlockName).value].layout.value|;
      var v := LookupByName(g, lm.allocations.value[j]).value;
      var ds := GlobalBufferSpec(g, lm).1;
      && 3 + n + 2 * j + 1 < |ds|
      && ds[3 + n + 2 * j] == Decoration(v, None, DescriptorSet, [0])
      && ds[3 + n + 2 * j + 1] == Decoration(v, None, Binding, [(FirstAllocationBinding + j) % U32])
  {
    var layout := lm.globals[FindGlobal(lm.globals, GlobalBlockName).value].layout.value;
    var v := LookupByName(g, GlobalBlockName).value;
    var st := VariablePointee(g, v).value;
    var names := lm.allocations.value;
    var k := FoundPrefix(g, names);
    assert j < k;
    var found := names[..k];
    assert forall i :: 0 <= i < |found| ==> LookupByName(g, found[i]).Some?;
    var front := BlockDecorations(v, st) + OffsetDecorations(st, layout);
    assert GlobalBufferSpec(g, lm).1 == front + BindingDecorations(g, found);
    assert |front| == 3 + |layout|;
    BindingDecorationsAt(g, found, j);
    assert found[j] == names[j];
  }

  /** The first name that does not resolve is where the found prefix ends. */
  lemma FoundPrefixStops(g: seq<Decl>, names: seq<string>, j: nat)
    requires j <= FoundPrefix(g, names) && j < |names| && LookupByName(g, names[j]).None?
    ensures FoundPrefix(g, names) == j
  {
  }

  lemma BindingDecorationsStep(g: seq<Decl>, names: seq<string>, j: nat)
    requires j < |names| && forall i :: 0 <= i <= j ==> LookupByName(g, names[i]).Some?
    ensures BindingDecorations(g, names[..j + 1]) == BindingDecorations(g, names[..j])
      + [Decoration(LookupByName(g, names[j]).value, None, DescriptorSet, [0]),
         Decoration(LookupByName(g, names[j]).value, None, Binding, [(FirstAllocationBinding + j) % U32])]
  {
    assert names[..j + 1][..j] == names[..j];
  }

  /** The block's own decorations: set 0 and binding 0 on the variable, BufferBlock on its struct. */
  method DecorateBlock(m: ShaderModule, v: nat, st: nat)
    modifies m`decorations
    ensures m.decorations == old(m.decorations) + BlockDecorations(v, st)
  {
    m.Decorate(v, None, DescriptorSet, [0]);
    m.Decorate(v, None, Binding, [0]);
    m.Decorate(st, None, BufferBlock, []);
  }

  /** std::find_if over the module's globals. */
  method FindGlobalIndex(gs: seq<LlvmGlobal>, name: string) returns (r: Option<nat>)
    ensures r == FindGlobal(gs, name)
  {
    var i := 0;
    while i < |gs|
      invariant i <= |gs|
      invariant forall j :: 0 <= j < i ==> gs[j].name != name
    {
      if gs[i].name == name {
        return Some(i);
      }
      i := i + 1;
    }
    return None;
  }

  /** The member-offset loop: element i's offset on member i of the block's struct. */
  method DecorateOffsets(m: ShaderModule, st: nat, layout: seq<nat>)
    modifies m`decorations
    ensures m.decorations == old(m.decorations) + OffsetDecorations(st, layout)
  {
    var i := 0;
    while i < |layout|
      invariant i <= |layout|
      invariant m.decorations == old(m.decorations) + OffsetDecorations(st, layout[..i])
    {
      assert layout[..i + 1][..i] == layout[..i];
      m.Decorate(st, Some(i), Offset, [layout[i] % U32]);
      i := i + 1;
    }
    assert layout[..i] == layout;
  }

  /**
   * The allocation loop: each named variable gets set 0 and the next binding
   * from 3; a name that does not resolve ends the pass with false, keeping
   * the bindings already made.
   */
  method BindAllocations(m: ShaderModule, names: seq<string>) returns (ok: bool)
    modifies m`decorations
    ensures ok == (FoundPrefix(m.globals, names) == |names|)
    ensures m.decorations == old(m.decorations) + BindingDecorations(m.globals, names[..FoundPrefix(m.globals, names)])
  {
    ghost var k := FoundPrefix(m.globals, names);
    var bindingNum := FirstAllocationBinding;
    var j := 0;
    while j < |names|
      invariant j <= k && bindingNum == FirstAllocationBinding + j
      invariant m.decorations == old(m.decorations) + BindingDecorations(m.globals, names[..j])
    {
      var v := LookupByName(m.globals, names[j]);
      if v.None? {
        FoundPrefixStops(m.globals, names, j);
        return false;
      }
      BindingDecorationsStep(m.globals, names, j);
      m.Decorate(v.value, None, DescriptorSet, [0]);
      m.Decorate(v.value, None, Binding, [bindingNum % U32]);
      bindingNum := bindingNum + 1;
      j := j + 1;
    }
    assert names[..j] == names;
    return true;
  }

  /** DecorateGlobalBuffer, with each of its early returns. */
  method DecorateGlobalBuffer(m: ShaderModule, lm: LlvmModule) returns (ok: bool)
    requires BlockTyped(m.globals)
    modifies m`decorations
    ensures ok == GlobalBufferSpec(m.globals, lm).0
    ensures m.decorations == old(m.decorations) + GlobalBufferSpec(m.globals, lm).1
  {
    var block := LookupByName(m.globals, GlobalBlockName);
    if block.None? {
      return true;
    }
    var v := block.value;
    var st := VariablePointee(m.globals, v).value;
    DecorateBlock(m, v, st);
    var found := FindGlobalIndex(lm.globals, GlobalBlockName);
    if found.None? {
      return true;
    }
    var layout := lm.globals[found.value].layout;
    if layout.None? {
      return false;
    }
    DecorateOffsets(m, st, layout.value);
    if lm.allocations.None? {
      return true;
    }
    ok := BindAllocations(m, lm.allocations.value);
  }
}
