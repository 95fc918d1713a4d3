/**
 * AddWrapper: lowering one RenderScript foreach kernel to a GLCompute entry
 * point whose void, parameterless function computes the invocation's linear
 * index, loads one element of each input buffer at that index, calls the
 * kernel and stores its result into the output buffer.
 */
module KernelWrapper {
  import opened Spirv
  import opened Uint32
  import opened ShaderModules
  import opened Semantics
  import opened Buffers
  import opened WrapperSpec

  /** No id of `g` lies in [lo, hi). */
  ghost predicate IdsOutside(g: seq<Decl>, lo: nat, hi: nat)
  {
    forall i :: 0 <= i < |g| && HasId(g[i]) ==> g[i].id < lo || g[i].id >= hi
  }

  lemma BelowIsOutside(g: seq<Decl>, lo: nat, hi: nat)
    requires IdsBelow(g, lo)
    ensures IdsOutside(g, lo, hi)
  {
  }

  lemma OutsideAppend(g: seq<Decl>, d: Decl, lo: nat, hi: nat)
    requires IdsOutside(g, lo, hi) && HasId(d) && d.id >= hi
    ensures IdsOutside(g + [d], lo, hi)
  {
    assert (g + [d])[|g|] == d;
  }

  lemma LookupOutside(g: seq<Decl>, id: nat, lo: nat, hi: nat)
    requires IdsOutside(g, lo, hi) && Lookup(g, id).Some?
    ensures id < lo || id >= hi
  {
    var k :| 0 <= k < |g| && g[k] == Lookup(g, id).value;
  }

  /** A constant keeps its value when the section grows. */
  lemma ConstValGrow(g: seq<Decl>, g': seq<Decl>, id: nat)
    requires g <= g' && ConstVal(g, id).Some?
    ensures ConstVal(g', id) == ConstVal(g, id)
  {
    LookupPrefix(g, g', id);
    match Lookup(g, id).value
    case ConstantComposite(_, _, parts) =>
      LookupPrefix(g, g', parts[0]);
      LookupPrefix(g, g', parts[1]);
      LookupPrefix(g, g', parts[2]);
    case _ =>
  }

  lemma BuiltinGrow(g: seq<Decl>, g': seq<Decl>, id: nat, b: BuiltIn)
    requires g <= g' && IsBuiltinVar(g, id, b)
    ensures IsBuiltinVar(g', id, b)
  {
    LookupPrefix(g, g', id);
  }

  /** The operands of the index computation: the two built-in inputs and the workgroup size (1, 1, 1). */
  ghost predicate IndexOk(g: seq<Decl>, ic: IndexIds)
  {
    && IsBuiltinVar(g, ic.inv, InvocationId)
    && IsBuiltinVar(g, ic.nwg, NumWorkgroups)
    && ConstVal(g, ic.gs) == Some(V3(1, 1, 1))
  }

  lemma IndexOkGrow(g: seq<Decl>, g': seq<Decl>, ic: IndexIds)
    requires g <= g' && IndexOk(g, ic)
    ensures IndexOk(g', ic)
  {
    BuiltinGrow(g, g', ic.inv, InvocationId);
    BuiltinGrow(g, g', ic.nwg, NumWorkgroups);
    ConstValGrow(g, g', ic.gs);
  }

  /** getVectorType, getInvocationId, then ids for the load of the invocation id and its three components. */
  method EmitInvocation(m: ShaderModule, uint: nat) returns (v3: nat, inv: nat, iid: nat)
    requires m.Valid()
    modifies m`globals, m`nextId
    ensures m.Valid()
    ensures old(m.globals) <= m.globals && old(m.nextId) <= iid && m.nextId == iid + 4
    ensures IdsBelow(m.globals, iid)
    ensures IsBuiltinVar(m.globals, inv, InvocationId)
  {
    v3 := m.Obtain(TypeVector(0, uint, 3));
    inv := m.GetBuiltin(InvocationId, uint);
    iid := m.FreshId();
    var x := m.FreshId();
    var y := m.FreshId();
    var z := m.FreshId();
  }

  /**
   * Intern with a leaner contract: besides the declaration, only that a gap
   * of ids stays free, since a new declaration takes an id at or above the
   * counter.
   */
  method InternOutside(m: ShaderModule, shape: Decl, ghost lo: nat, ghost hi: nat) returns (id: nat)
    requires m.Valid() && Internable(shape) && IdsOutside(m.globals, lo, hi) && hi <= m.nextId
    modifies m`globals, m`nextId
    ensures m.Valid()
    ensures old(m.globals) <= m.globals && old(m.nextId) <= m.nextId && id < m.nextId
    ensures Lookup(m.globals, id) == Some(WithId(shape, id))
    ensures IdsOutside(m.globals, lo, hi)
  {
    ghost var g0 := m.globals;
    id := m.Intern(shape);
    if FindShape(g0, shape).None? {
      OutsideAppend(g0, WithId(shape, id), lo, hi);
    }
  }

  /**
   * getConstant(1) and the composite (1, 1, 1). Its id is none of those
   * handed out in [lo, nextId) since the section last had ids below lo.
   */
  method EmitGroupSize(m: ShaderModule, uint: nat, v3: nat, ghost lo: nat) returns (gs: nat)
    requires m.Valid() && IdsBelow(m.globals, lo)
    modifies m`globals, m`nextId
    ensures m.Valid()
    ensures old(m.globals) <= m.globals && old(m.nextId) <= m.nextId
    ensures gs < lo || old(m.nextId) <= gs
    ensures gs < m.nextId
    ensures ConstVal(m.globals, gs) == Some(V3(1, 1, 1))
  {
    BelowIsOutside(m.globals, lo, m.nextId);
    var one := InternOutside(m, Constant(0, uint, 1), lo, m.nextId);
    ghost var g1 := m.globals;
    gs := InternOutside(m, ConstantComposite(0, v3, [one, one, one]), lo, old(m.nextId));
    LookupOutside(m.globals, gs, lo, old(m.nextId));
    LookupPrefix(g1, m.globals, one);
    assert ScalarConst(m.globals, one) == Some(1);
  }

  /** Ids for the workgroup-size components, getNumWorkgroups, and ids for its load and its X and Y components. */
  method EmitGrid(m: ShaderModule, uint: nat) returns (nwg: nat, gsx: nat, ng: nat)
    requires m.Valid()
    modifies m`globals, m`nextId
    ensures m.Valid()
    ensures old(m.globals) <= m.globals && old(m.nextId) <= gsx && gsx + 1 < ng && m.nextId == ng + 3
    ensures IsBuiltinVar(m.globals, nwg, NumWorkgroups)
  {
    gsx := m.FreshId();
    var gsy := m.FreshId();
    nwg := m.GetBuiltin(NumWorkgroups, uint);
    ng := m.FreshId();
    var ngx := m.FreshId();
    var ngy := m.FreshId();
  }

  /** Ids for gx, gy, rows along Z, number of rows, cells from Y and Z, and the index. */
  method EmitArithmetic(m: ShaderModule) returns (gx: nat)
    requires m.Valid()
    modifies m`nextId
    ensures m.Valid()
    ensures gx == old(m.nextId) && m.nextId == gx + 6
  {
    gx := m.FreshId();
    var gy := m.FreshId();
    var rows := m.FreshId();
    var numRows := m.FreshId();
    var cells := m.FreshId();
    var index := m.FreshId();
  }

  /** The linear-index computation of AddWrapper, with its fifteen fresh result ids. */
  method EmitIndex(m: ShaderModule, uint: nat) returns (ic: IndexIds, code: seq<Inst>)
    requires m.Valid()
    modifies m`globals, m`nextId
    ensures m.Valid()
    ensures old(m.globals) <= m.globals && old(m.nextId) <= ic.iid && ic.index < m.nextId
    ensures ic.uint == uint && IndexIdsOk(ic) && IndexOk(m.globals, ic)
    ensures code == IndexCode(ic)
  {
    var v3, inv, iid := EmitInvocation(m, uint);
    ghost var g1 := m.globals;
    var gs := EmitGroupSize(m, uint, v3, iid);
    ghost var g2 := m.globals;
    var nwg, gsx, ng := EmitGrid(m, uint);
    var gx := EmitArithmetic(m);
    ic := IndexIds(uint, v3, inv, nwg, gs, iid, iid + 1, iid + 2, iid + 3,
      gsx, gsx + 1, ng, ng + 1, ng + 2, gx, gx + 1, gx + 2, gx + 3, gx + 4, gx + 5);
    code := IndexCode(ic);
    BuiltinGrow(g1, m.globals, inv, InvocationId);
    ConstValGrow(g2, m.globals, gs);
    assert inv != nwg by {
      assert Lookup(m.globals, inv).value.builtin != Lookup(m.globals, nwg).value.builtin;
    }
  }

  /** Input `inp` reads element type `elem` from a buffer at `binding` through a Function-class pointer. */
  ghost predicate InputOk(g: seq<Decl>, ds: seq<Decoration>, inp: InputIds, binding: nat, size: nat -> nat)
  {
    && IsBuffer(g, ds, inp.buffer, inp.elem, binding, size(inp.elem) % U32)
    && Lookup(g, inp.ptrType) == Some(TypePointer(inp.ptrType, Function, inp.elem))
    && inp.buffer < inp.chain < inp.load
  }

  /** The binding of input i: i + 2, computed in 32 bits as the source's `uint32_t` loop counter is. */
  function InputBinding(i: nat): (b: nat)
    ensures b < U32
    ensures i + 2 < U32 ==> b == i + 2
  {
    (i + 2) % U32
  }

  /** Input i has the type of the kernel's parameter i and its buffer at binding i + 2 (mod 2^32); buffers are distinct. */
  ghost predicate InputsOk(g: seq<Decl>, ds: seq<Decoration>, ins: seq<InputIds>, params: seq<nat>, size: nat -> nat)
  {
    && |ins| <= |params|
    && (forall i :: 0 <= i < |ins| ==> ins[i].elem == params[i] && InputOk(g, ds, ins[i], InputBinding(i), size))
    && (forall i, j :: 0 <= i < j < |ins| ==> ins[i].load < ins[j].buffer)
  }

  lemma InputOkGrow(g: seq<Decl>, g': seq<Decl>, ds: seq<Decoration>, ds': seq<Decoration>, inp: InputIds, binding: nat, size: nat -> nat)
    requires g <= g' && ds <= ds' && InputOk(g, ds, inp, binding, size)
    ensures InputOk(g', ds', inp, binding, size)
  {
    IsBufferGrow(g, g', ds, ds', inp.buffer, inp.elem, binding, size(inp.elem) % U32);
    LookupPrefix(g, g', inp.ptrType);
  }

  lemma InputsOkGrow(g: seq<Decl>, g': seq<Decl>, ds: seq<Decoration>, ds': seq<Decoration>, ins: seq<InputIds>, params: seq<nat>, size: nat -> nat)
    requires g <= g' && ds <= ds' && InputsOk(g, ds, ins, params, size)
    ensures InputsOk(g', ds', ins, params, size)
  {
    forall i | 0 <= i < |ins|
      ensures InputOk(g', ds', ins[i], InputBinding(i), size)
    {
      InputOkGrow(g, g', ds, ds', ins[i], InputBinding(i), size);
    }
  }

  /** The Function-class element pointer type and fresh ids for an access chain and what it yields. */
  method EmitAccess(m: ShaderModule, elem: nat) returns (ptrType: nat, chain: nat, result: nat)
    requires m.Valid()
    modifies m`globals, m`nextId
    ensures m.Valid()
    ensures old(m.globals) <= m.globals && old(m.nextId) <= chain < result < m.nextId
    ensures Lookup(m.globals, ptrType) == Some(TypePointer(ptrType, Function, elem))
  {
    ptrType := m.Obtain(TypePointer(0, Function, elem));
    chain := m.FreshId();
    result := m.FreshId();
  }

  /** The Binding decorations of the input buffers: input i at binding i + 2 (mod 2^32), in input order. */
  function InputBindings(ins: seq<InputIds>): seq<Decoration>
  {
    seq(|ins|, i requires 0 <= i < |ins| => Decoration(ins[i].buffer, None, Binding, [InputBinding(i)]))
  }

  lemma InputBindingsSnoc(ins: seq<InputIds>, inp: InputIds)
    ensures InputBindings(ins + [inp]) == InputBindings(ins) + [Decoration(inp.buffer, None, Binding, [InputBinding(|ins|)])]
  {
    assert forall i :: 0 <= i < |ins| ==> (ins + [inp])[i] == ins[i];
  }

  /** The decoration facts of the input loop, extended by one input. */
  lemma InputDecorationsSnoc(ds0: seq<Decoration>, ds: seq<Decoration>, ds': seq<Decoration>, ins: seq<InputIds>, inp: InputIds)
    requires |ds| == |ds0| + 5 * |ins| && Bindings(ds) == Bindings(ds0) + InputBindings(ins)
    requires |ds'| == |ds| + 5 && Bindings(ds') == Bindings(ds) + [Decoration(inp.buffer, None, Binding, [InputBinding(|ins|)])]
    ensures |ds'| == |ds0| + 5 * |ins + [inp]| && Bindings(ds') == Bindings(ds0) + InputBindings(ins + [inp])
  {
    InputBindingsSnoc(ins, inp);
  }

  /** The Binding decoration of the output buffer, at binding 1, when there is one. */
  function OutputBindings(o: Option<OutputIds>): seq<Decoration>
  {
    match o
    case Some(out) => [Decoration(out.buffer, None, Binding, [1])]
    case None => []
  }

  /**
   * The decorations a wrapper adds to `ds`: five per buffer, one buffer per
   * input and one for the output, whose Binding decorations are the inputs'
   * at bindings 2, 3, … in order, then the output's at binding 1.
   */
  ghost predicate WrapperDecorationsOk(ds: seq<Decoration>, ds': seq<Decoration>, sig: Signature, numInput: nat, w: WrapperIds)
  {
    && ds <= ds'
    && |ds'| == |ds| + 5 * (numInput + if sig.output then 1 else 0)
    && Bindings(ds') == Bindings(ds) + InputBindings(w.inputs) + OutputBindings(w.output)
  }

  /**
   * The wrapper's buffers are new variables: their ids are at or above `n0`,
   * the module's next id before the wrapper was built, and every input
   * buffer was created before the output buffer.
   */
  ghost predicate BuffersFresh(n0: nat, w: WrapperIds)
  {
    && (forall i :: 0 <= i < |w.inputs| ==> n0 <= w.inputs[i].buffer)
    && (w.output.Some? ==> n0 <= w.output.value.buffer)
    && (w.output.Some? ==> forall i :: 0 <= i < |w.inputs| ==> w.inputs[i].buffer < w.output.value.buffer)
  }

  lemma BuffersFreshIntro(g: seq<Decl>, ds: seq<Decoration>, params: seq<nat>, size: nat -> nat, n0: nat, n2: nat, w: WrapperIds)
    requires InputsOk(g, ds, w.inputs, params, size) && n0 <= n2
    requires forall i :: 0 <= i < |w.inputs| ==> n0 <= w.inputs[i].buffer && w.inputs[i].load < n2
    requires w.output.Some? ==> n2 <= w.output.value.buffer
    ensures BuffersFresh(n0, w)
  {
    forall i | 0 <= i < |w.inputs|
      ensures w.inputs[i].buffer < n2
    {
      assert InputOk(g, ds, w.inputs[i], InputBinding(i), size);
    }
  }

  /**
   * Fresh buffers are none of the variables the module declared before the
   * wrapper (such as "__GPUBlock"), and the output buffer is none of the
   * input buffers.
   */
  lemma {:induction false} WrapperBuffersNew(g: seq<Decl>, n0: nat, w: WrapperIds)
    requires IdsBelow(g, n0) && BuffersFresh(n0, w)
    ensures forall i :: 0 <= i < |w.inputs| ==> Lookup(g, w.inputs[i].buffer).None?
    ensures w.output.Some? ==> Lookup(g, w.output.value.buffer).None?
    ensures w.output.Some? ==> forall i :: 0 <= i < |w.inputs| ==> w.inputs[i].buffer != w.output.value.buffer
  {
    forall i | 0 <= i < |w.inputs|
      ensures Lookup(g, w.inputs[i].buffer).None?
    {
      LookupBeyond(g, n0, w.inputs[i].buffer);
    }
    if w.output.Some? {
      LookupBeyond(g, n0, w.output.value.buffer);
    }
  }

  /** One iteration of the input loop: AddBuffer at `binding`, the element pointer type, the access chain and the load. */
  method EmitInput(m: ShaderModule, elem: nat, binding: nat, zero: nat, index: nat, size: nat -> nat)
    returns (inp: InputIds, code: seq<Inst>)
    requires m.Valid()
    modifies m`globals, m`nextId, m`decorations
    ensures m.Valid()
    ensures old(m.globals) <= m.globals && old(m.decorations) <= m.decorations
    ensures old(m.nextId) <= inp.buffer && inp.load < m.nextId
    ensures inp.elem == elem && InputOk(m.globals, m.decorations, inp, binding, size)
    ensures code == [AccessChain(inp.chain, inp.ptrType, inp.buffer, [zero, index]), Load(inp.load, elem, inp.chain)]
    ensures |m.decorations| == |old(m.decorations)| + 5
    ensures Bindings(m.decorations) == Bindings(old(m.decorations)) + [Decoration(inp.buffer, None, Binding, [binding])]
  {
    var buffer := AddBuffer(m, elem, binding, size);
    ghost var g1 := m.globals;
    var ptrType, chain, load := EmitAccess(m, elem);
    inp := InputIds(elem, buffer, ptrType, chain, load);
    code := [AccessChain(chain, ptrType, buffer, [zero, index]), Load(load, elem, chain)];
    IsBufferGrow(g1, m.globals, m.decorations, m.decorations, buffer, elem, binding, size(elem) % U32);
  }

  lemma InputCodeSnoc(ins: seq<InputIds>, inp: InputIds, zero: nat, index: nat)
    ensures InputCode(ins + [inp], zero, index)
         == InputCode(ins, zero, index) + [AccessChain(inp.chain, inp.ptrType, inp.buffer, [zero, index]), Load(inp.load, inp.elem, inp.chain)]
  {
    assert (ins + [inp])[..|ins|] == ins;
  }

  lemma InputsOkSnoc(g: seq<Decl>, ds: seq<Decoration>, ins: seq<InputIds>, inp: InputIds, params: seq<nat>, size: nat -> nat, lo: nat, hi: nat, hi': nat)
    requires InputsOk(g, ds, ins, params, size)
    requires forall j :: 0 <= j < |ins| ==> lo <= ins[j].buffer && ins[j].load < hi
    requires |ins| < |params| && inp.elem == params[|ins|] && InputOk(g, ds, inp, InputBinding(|ins|), size)
    requires hi <= inp.buffer && inp.load < hi' && hi <= hi' && lo <= hi
    ensures InputsOk(g, ds, ins + [inp], params, size)
    ensures forall j :: 0 <= j < |ins + [inp]| ==> lo <= (ins + [inp])[j].buffer && (ins + [inp])[j].load < hi'
  {
    var s := ins + [inp];
    forall i | 0 <= i < |s|
      ensures i < |params| && s[i].elem == params[i] && InputOk(g, ds, s[i], InputBinding(i), size)
      ensures lo <= s[i].buffer && s[i].load < hi'
    {
      if i < |ins| {
        assert s[i] == ins[i];
      }
    }
    forall i, j | 0 <= i < j < |s|
      ensures s[i].load < s[j].buffer
    {
      if j < |ins| {
        assert s[i] == ins[i] && s[j] == ins[j];
      } else {
        assert s[i] == ins[i] && s[j] == inp;
      }
    }
  }

  /** The input loop's facts, extended by the input `inp` emitted from state (g, ds, n) to state (g', ds', n'). */
  lemma AppendInputOk(g: seq<Decl>, g': seq<Decl>, ds0: seq<Decoration>, ds: seq<Decoration>, ds': seq<Decoration>,
                      params: seq<nat>, ins: seq<InputIds>, inp: InputIds, c: seq<Inst>, code: seq<Inst>, loads: seq<nat>,
                      zero: nat, index: nat, size: nat -> nat, lo: nat, n: nat, n': nat)
    requires g <= g' && ds <= ds' && |ins| < |params| && lo <= n
    requires InputsOk(g, ds, ins, params, size)
    requires forall j :: 0 <= j < |ins| ==> lo <= ins[j].buffer && ins[j].load < n
    requires code == InputCode(ins, zero, index) && loads == Loads(ins)
    requires |ds| == |ds0| + 5 * |ins| && Bindings(ds) == Bindings(ds0) + InputBindings(ins)
    requires n <= inp.buffer && inp.load < n'
    requires inp.elem == params[|ins|] && InputOk(g', ds', inp, InputBinding(|ins|), size)
    requires c == [AccessChain(inp.chain, inp.ptrType, inp.buffer, [zero, index]), Load(inp.load, params[|ins|], inp.chain)]
    requires |ds'| == |ds| + 5 && Bindings(ds') == Bindings(ds) + [Decoration(inp.buffer, None, Binding, [InputBinding(|ins|)])]
    ensures InputsOk(g', ds', ins + [inp], params, size)
    ensures forall j :: 0 <= j < |ins + [inp]| ==> lo <= (ins + [inp])[j].buffer && (ins + [inp])[j].load < n'
    ensures code + c == InputCode(ins + [inp], zero, index) && loads + [inp.load] == Loads(ins + [inp])
    ensures |ds'| == |ds0| + 5 * |ins + [inp]| && Bindings(ds') == Bindings(ds0) + InputBindings(ins + [inp])
  {
    InputsOkGrow(g, g', ds, ds', ins, params, size);
    InputsOkSnoc(g', ds', ins, inp, params, size, lo, n, n');
    InputCodeSnoc(ins, inp, zero, index);
    LoadsSnoc(ins, inp);
    InputDecorationsSnoc(ds0, ds, ds', ins, inp);
  }

  /** One turn of the input loop: the next input, with the loop's facts extended to it. */
  method AppendInput(m: ShaderModule, params: seq<nat>, ins: seq<InputIds>, code: seq<Inst>, loads: seq<nat>,
                     zero: nat, index: nat, size: nat -> nat, ghost lo: nat, ghost ds0: seq<Decoration>)
    returns (ins': seq<InputIds>, code': seq<Inst>, loads': seq<nat>)
    requires m.Valid() && |ins| < |params| && lo <= m.nextId
    requires InputsOk(m.globals, m.decorations, ins, params, size)
    requires forall j :: 0 <= j < |ins| ==> lo <= ins[j].buffer && ins[j].load < m.nextId
    requires code == InputCode(ins, zero, index) && loads == Loads(ins)
    requires |m.decorations| == |ds0| + 5 * |ins| && Bindings(m.decorations) == Bindings(ds0) + InputBindings(ins)
    modifies m`globals, m`nextId, m`decorations
    ensures m.Valid()
    ensures old(m.globals) <= m.globals && old(m.decorations) <= m.decorations && old(m.nextId) <= m.nextId
    ensures |ins'| == |ins| + 1
    ensures InputsOk(m.globals, m.decorations, ins', params, size)
    ensures forall j :: 0 <= j < |ins'| ==> lo <= ins'[j].buffer && ins'[j].load < m.nextId
    ensures code' == InputCode(ins', zero, index) && loads' == Loads(ins')
    ensures |m.decorations| == |ds0| + 5 * |ins'| && Bindings(m.decorations) == Bindings(ds0) + InputBindings(ins')
  {
    ghost var g, ds, n := m.globals, m.decorations, m.nextId;
    var inp, c := EmitInput(m, params[|ins|], InputBinding(|ins|), zero, index, size);
    AppendInputOk(g, m.globals, ds0, ds, m.decorations, params, ins, inp, c, code, loads, zero, index, size, lo, n, m.nextId);
    ins', code', loads' := ins + [inp], code + c, loads + [inp.load];
  }

  /** The input loop: input i is read from a buffer at binding i + 2 holding the type of parameter i. */
  method EmitInputs(m: ShaderModule, params: seq<nat>, numInput: nat, zero: nat, index: nat, size: nat -> nat)
    returns (ins: seq<InputIds>, code: seq<Inst>, loads: seq<nat>)
    requires m.Valid() && numInput <= |params|
    modifies m`globals, m`nextId, m`decorations
    ensures m.Valid()
    ensures old(m.globals) <= m.globals && old(m.decorations) <= m.decorations && old(m.nextId) <= m.nextId
    ensures |ins| == numInput && InputsOk(m.globals, m.decorations, ins, params, size)
    ensures forall i :: 0 <= i < |ins| ==> old(m.nextId) <= ins[i].buffer && ins[i].load < m.nextId
    ensures code == InputCode(ins, zero, index) && loads == Loads(ins)
    ensures |m.decorations| == |old(m.decorations)| + 5 * numInput
    ensures Bindings(m.decorations) == Bindings(old(m.decorations)) + InputBindings(ins)
  {
    ins, code, loads := [], [], [];
    var i := 0;
    while i < numInput
      invariant m.Valid() && i == |ins| <= numInput
      invariant old(m.globals) <= m.globals && old(m.decorations) <= m.decorations && old(m.nextId) <= m.nextId
      invariant InputsOk(m.globals, m.decorations, ins, params, size)
      invariant forall j :: 0 <= j < |ins| ==> old(m.nextId) <= ins[j].buffer && ins[j].load < m.nextId
      invariant code == InputCode(ins, zero, index) && loads == Loads(ins)
      invariant |m.decorations| == |old(m.decorations)| + 5 * |ins|
      invariant Bindings(m.decorations) == Bindings(old(m.decorations)) + InputBindings(ins)
    {
      ins, code, loads := AppendInput(m, params, ins, code, loads, zero, index, size, old(m.nextId), old(m.decorations));
      i := i + 1;
    }
  }

  /** The output buffer at binding 1 holds the kernel's return type. */
  ghost predicate OutputOk(g: seq<Decl>, ds: seq<Decoration>, o: OutputIds, resultType: nat, size: nat -> nat)
  {
    && IsBuffer(g, ds, o.buffer, resultType, 1, size(resultType) % U32)
    && Lookup(g, o.ptrType) == Some(TypePointer(o.ptrType, Function, resultType))
    && o.buffer < o.chain
  }

  /** The Function pointer type to the result type and a fresh id for the output's access chain. */
  method EmitStoreAccess(m: ShaderModule, resultType: nat) returns (ptrType: nat, chain: nat)
    requires m.Valid()
    modifies m`globals, m`nextId
    ensures m.Valid()
    ensures old(m.globals) <= m.globals && old(m.nextId) <= chain < m.nextId
    ensures Lookup(m.globals, ptrType) == Some(TypePointer(ptrType, Function, resultType))
  {
    ptrType := m.Obtain(TypePointer(0, Function, resultType));
    chain := m.FreshId();
  }

  /** AddBuffer at binding 1, the result pointer type, the access chain at the index and the store of the call's value. */
  method EmitOutput(m: ShaderModule, resultType: nat, zero: nat, index: nat, call: nat, size: nat -> nat)
    returns (o: OutputIds, code: seq<Inst>)
    requires m.Valid()
    modifies m`globals, m`nextId, m`decorations
    ensures m.Valid()
    ensures old(m.globals) <= m.globals && old(m.decorations) <= m.decorations
    ensures old(m.nextId) <= o.buffer && o.chain < m.nextId
    ensures OutputOk(m.globals, m.decorations, o, resultType, size)
    ensures code == [AccessChain(o.chain, o.ptrType, o.buffer, [zero, index]), Store(o.chain, call)]
    ensures |m.decorations| == |old(m.decorations)| + 5
    ensures Bindings(m.decorations) == Bindings(old(m.decorations)) + [Decoration(o.buffer, None, Binding, [1])]
  {
    var buffer := AddBuffer(m, resultType, 1, size);
    ghost var g1 := m.globals;
    var ptrType, chain := EmitStoreAccess(m, resultType);
    o := OutputIds(buffer, ptrType, chain);
    code := [AccessChain(chain, ptrType, buffer, [zero, index]), Store(chain, call)];
    IsBufferGrow(g1, m.globals, m.decorations, m.decorations, buffer, resultType, 1, size(resultType) % U32);
  }

  /** The void type, the void() function type and the 32-bit unsigned type. */
  ghost predicate HeaderOk(g: seq<Decl>, void: nat, fnType: nat, uint: nat)
  {
    && Lookup(g, void) == Some(TypeVoid(void))
    && Lookup(g, fnType) == Some(TypeFunction(fnType, void, []))
    && Lookup(g, uint) == Some(TypeInt(uint, 32, false))
  }

  lemma HeaderOkGrow(g: seq<Decl>, g': seq<Decl>, void: nat, fnType: nat, uint: nat)
    requires g <= g' && HeaderOk(g, void, fnType, uint)
    ensures HeaderOk(g', void, fnType, uint)
  {
    LookupPrefix(g, g', void);
    LookupPrefix(g, g', fnType);
    LookupPrefix(g, g', uint);
  }

  method EmitFunctionType(m: ShaderModule) returns (void: nat, fnType: nat)
    requires m.Valid()
    modifies m`globals, m`nextId
    ensures m.Valid()
    ensures old(m.globals) <= m.globals && old(m.nextId) <= m.nextId
    ensures Lookup(m.globals, void) == Some(TypeVoid(void))
    ensures Lookup(m.globals, fnType) == Some(TypeFunction(fnType, void, []))
  {
    void := m.Obtain(TypeVoid(0));
    ghost var g1 := m.globals;
    fnType := m.Obtain(TypeFunction(0, void, []));
    LookupPrefix(g1, m.globals, void);
  }

  /** getVoidType, getFunctionType, MakeFunctionDefinition, MakeLabel and getUnsignedIntType(32). */
  method EmitHeader(m: ShaderModule) returns (void: nat, fnType: nat, func: nat, blockLabel: nat, uint: nat)
    requires m.Valid()
    modifies m`globals, m`nextId
    ensures m.Valid()
    ensures old(m.globals) <= m.globals && old(m.nextId) <= func < blockLabel < m.nextId
    ensures HeaderOk(m.globals, void, fnType, uint)
  {
    void, fnType := EmitFunctionType(m);
    func := m.FreshId();
    blockLabel := m.FreshId();
    ghost var g1 := m.globals;
    uint := m.Obtain(TypeInt(0, 32, false));
    LookupPrefix(g1, m.globals, void);
    LookupPrefix(g1, m.globals, fnType);
  }

  /** The index, when the signature needs it; otherwise the null id stands in for it. */
  method EmitOptionalIndex(m: ShaderModule, sig: Signature, uint: nat) returns (index: Option<IndexIds>, code: seq<Inst>)
    requires m.Valid()
    modifies m`globals, m`nextId
    ensures m.Valid()
    ensures old(m.globals) <= m.globals && old(m.nextId) <= m.nextId
    ensures index.Some? <==> NeedsIndex(sig)
    ensures index.Some? ==> index.value.uint == uint && IndexIdsOk(index.value) && IndexOk(m.globals, index.value)
    ensures code == match index case Some(ic) => IndexCode(ic) case None => []
  {
    if NeedsIndex(sig) {
      var ic;
      ic, code := EmitIndex(m, uint);
      index := Some(ic);
    } else {
      index, code := None, [];
    }
  }

  /** getConstant: the interned 32-bit unsigned constant. */
  method EmitConstant(m: ShaderModule, uint: nat, value: nat) returns (c: nat)
    requires m.Valid()
    modifies m`globals, m`nextId
    ensures m.Valid()
    ensures old(m.globals) <= m.globals && old(m.nextId) <= m.nextId
    ensures ConstVal(m.globals, c) == Some(U(value))
  {
    c := m.Obtain(Constant(0, uint, value));
  }

  /** getConstant(0), then the input loop reading at `index`. */
  method EmitInputSection(m: ShaderModule, params: seq<nat>, numInput: nat, uint: nat, index: nat, size: nat -> nat)
    returns (zero: nat, ins: seq<InputIds>, code: seq<Inst>, loads: seq<nat>)
    requires m.Valid() && numInput <= |params|
    modifies m`globals, m`nextId, m`decorations
    ensures m.Valid()
    ensures old(m.globals) <= m.globals && old(m.decorations) <= m.decorations && old(m.nextId) <= m.nextId
    ensures ConstVal(m.globals, zero) == Some(U(0))
    ensures |ins| == numInput && InputsOk(m.globals, m.decorations, ins, params, size)
    ensures code == InputCode(ins, zero, index) && loads == Loads(ins)
    ensures |m.decorations| == |old(m.decorations)| + 5 * numInput
    ensures Bindings(m.decorations) == Bindings(old(m.decorations)) + InputBindings(ins)
    ensures forall i :: 0 <= i < |ins| ==> old(m.nextId) <= ins[i].buffer && ins[i].load < m.nextId
  {
    zero := EmitConstant(m, uint, 0);
    ghost var g1 := m.globals;
    ins, code, loads := EmitInputs(m, params, numInput, zero, index, size);
    ConstValGrow(g1, m.globals, zero);
  }

  /** The index, getConstant(0) and the input loop. */
  method EmitBody(m: ShaderModule, sig: Signature, params: seq<nat>, numInput: nat, uint: nat, size: nat -> nat)
    returns (index: Option<IndexIds>, zero: nat, ins: seq<InputIds>, code: seq<Inst>, loads: seq<nat>)
    requires m.Valid() && numInput <= |params|
    modifies m`globals, m`nextId, m`decorations
    ensures m.Valid()
    ensures old(m.globals) <= m.globals && old(m.decorations) <= m.decorations && old(m.nextId) <= m.nextId
    ensures index.Some? <==> NeedsIndex(sig)
    ensures index.Some? ==> index.value.uint == uint && IndexIdsOk(index.value) && IndexOk(m.globals, index.value)
    ensures ConstVal(m.globals, zero) == Some(U(0))
    ensures |ins| == numInput && InputsOk(m.globals, m.decorations, ins, params, size)
    ensures code == (match index case Some(ic) => IndexCode(ic) case None => [])
      + InputCode(ins, zero, match index case Some(ic) => ic.index case None => 0)
    ensures loads == Loads(ins)
    ensures |m.decorations| == |old(m.decorations)| + 5 * numInput
    ensures Bindings(m.decorations) == Bindings(old(m.decorations)) + InputBindings(ins)
    ensures forall i :: 0 <= i < |ins| ==> old(m.nextId) <= ins[i].buffer && ins[i].load < m.nextId
  {
    var c1, c2;
    index, c1 := EmitOptionalIndex(m, sig, uint);
    ghost var g1 := m.globals;
    zero, ins, c2, loads := EmitInputSection(m, params, numInput, uint, match index case Some(ic) => ic.index case None => 0, size);
    code := c1 + c2;
    if index.Some? {
      IndexOkGrow(g1, m.globals, index.value);
    }
  }

  /** Everything AddWrapper promises about the declarations and decorations behind a wrapper's ids. */
  ghost predicate WrapperOk(g: seq<Decl>, ds: seq<Decoration>, sig: Signature, k: FunctionDef, numInput: nat, size: nat -> nat, w: WrapperIds)
  {
    && HeaderOk(g, w.void, w.fnType, w.uint)
    && (w.index.Some? <==> NeedsIndex(sig))
    && (w.index.Some? ==> w.index.value.uint == w.uint && IndexIdsOk(w.index.value) && IndexOk(g, w.index.value))
    && ConstVal(g, w.zero) == Some(U(0))
    && |w.inputs| == numInput && InputsOk(g, ds, w.inputs, k.params, size)
    && (w.output.Some? <==> sig.output)
    && (w.output.Some? ==> OutputOk(g, ds, w.output.value, k.returnType, size))
  }

  lemma OutputOkGrow(g: seq<Decl>, g': seq<Decl>, ds: seq<Decoration>, ds': seq<Decoration>, o: OutputIds, resultType: nat, size: nat -> nat)
    requires g <= g' && ds <= ds' && OutputOk(g, ds, o, resultType, size)
    ensures OutputOk(g', ds', o, resultType, size)
  {
    IsBufferGrow(g, g', ds, ds', o.buffer, resultType, 1, size(resultType) % U32);
    LookupPrefix(g, g', o.ptrType);
  }

  /** A wrapper stays well formed while later wrappers add declarations and decorations. */
  lemma WrapperOkGrow(g: seq<Decl>, g': seq<Decl>, ds: seq<Decoration>, ds': seq<Decoration>,
                      sig: Signature, k: FunctionDef, numInput: nat, size: nat -> nat, w: WrapperIds)
    requires g <= g' && ds <= ds' && WrapperOk(g, ds, sig, k, numInput, size, w)
    ensures WrapperOk(g', ds', sig, k, numInput, size, w)
  {
    HeaderOkGrow(g, g', w.void, w.fnType, w.uint);
    if w.index.Some? {
      IndexOkGrow(g, g', w.index.value);
    }
    ConstValGrow(g, g', w.zero);
    InputsOkGrow(g, g', ds, ds', w.inputs, k.params, size);
    if w.output.Some? {
      OutputOkGrow(g, g', ds, ds', w.output.value, k.returnType, size);
    }
  }

  /** The kernel call on the loaded inputs and the coordinates, then the output store if the kernel has an output. */
  method EmitCall(m: ShaderModule, sig: Signature, k: FunctionDef, index: Option<IndexIds>, zero: nat, loads: seq<nat>, size: nat -> nat)
    returns (call: nat, args: seq<nat>, output: Option<OutputIds>, code: seq<Inst>)
    requires m.Valid() && (NeedsIndex(sig) ==> index.Some?)
    modifies m`globals, m`nextId, m`decorations
    ensures m.Valid()
    ensures old(m.globals) <= m.globals && old(m.decorations) <= m.decorations && old(m.nextId) <= call < m.nextId
    ensures args == loads + match index case Some(ic) => CoordArgs(sig, ic) case None => []
    ensures output.Some? <==> sig.output
    ensures output.Some? ==> OutputOk(m.globals, m.decorations, output.value, k.returnType, size)
    ensures code == [FunctionCall(call, k.returnType, k.id, args)]
      + match output
        case Some(o) => [AccessChain(o.chain, o.ptrType, o.buffer, [zero, match index case Some(ic) => ic.index case None => 0]), Store(o.chain, call)]
        case None => []
    ensures |m.decorations| == |old(m.decorations)| + (if sig.output then 5 else 0)
    ensures Bindings(m.decorations) == Bindings(old(m.decorations)) + OutputBindings(output)
    ensures output.Some? ==> old(m.nextId) <= output.value.buffer
  {
    args := loads;
    if sig.x {
      args := args + [index.value.x];
      if sig.y {
        args := args + [index.value.y];
        if sig.z {
          args := args + [index.value.z];
        }
      }
    }
    call := m.FreshId();
    code := [FunctionCall(call, k.returnType, k.id, args)];
    if sig.output {
      var o, c := EmitOutput(m, k.returnType, zero, match index case Some(ic) => ic.index case None => 0, call, size);
      output := Some(o);
      code := code + c;
    } else {
      output := None;
    }
  }

  /** The declarations and the block of a wrapper: header, index, inputs, call, output, return. */
  method EmitBlock(m: ShaderModule, sig: Signature, k: FunctionDef, numInput: nat, size: nat -> nat)
    returns (w: WrapperIds, block: seq<Inst>)
    requires m.Valid() && numInput <= |k.params|
    modifies m`globals, m`nextId, m`decorations
    ensures m.Valid()
    ensures old(m.globals) <= m.globals && old(m.decorations) <= m.decorations && old(m.nextId) <= w.func
    ensures block == WrapperBlock(sig, k, w)
    ensures WrapperOk(m.globals, m.decorations, sig, k, numInput, size, w)
    ensures WrapperDecorationsOk(old(m.decorations), m.decorations, sig, numInput, w)
    ensures BuffersFresh(old(m.nextId), w)
  {
    var void, fnType, func, blockLabel, uint := EmitHeader(m);
    ghost var g1 := m.globals;
    var index, zero, ins, code, loads := EmitBody(m, sig, k.params, numInput, uint, size);
    ghost var g2, ds2, n2 := m.globals, m.decorations, m.nextId;
    var call, args, output, callCode := EmitCall(m, sig, k, index, zero, loads, size);
    w := WrapperIds(void, fnType, func, blockLabel, uint, index, zero, ins, call, output);
    BuffersFreshIntro(g2, ds2, k.params, size, old(m.nextId), n2, w);
    block := [Label(blockLabel)] + code + callCode + [Return];
    assert args == CallArgs(sig, w);
    WrapperBlockParts(sig, k, w, code, callCode);
    HeaderOkGrow(g1, m.globals, void, fnType, uint);
    if index.Some? {
      IndexOkGrow(g2, m.globals, index.value);
    }
    ConstValGrow(g2, m.globals, zero);
    InputsOkGrow(g2, m.globals, ds2, m.decorations, ins, k.params, size);
  }

  /** The wrapper function and its entry point, for a kernel that passed the checks. */
  method EmitWrapper(m: ShaderModule, name: string, sig: Signature, k: FunctionDef, numInput: nat, size: nat -> nat)
    returns (w: WrapperIds)
    requires m.Valid() && numInput <= |k.params|
    modifies m
    ensures m.Valid()
    ensures old(m.globals) <= m.globals && old(m.decorations) <= m.decorations && old(m.nextId) <= w.func
    ensures m.functions == old(m.functions) + [WrapperFunction(sig, k, w)]
    ensures m.entryPoints == old(m.entryPoints) + [WrapperEntryPoint(name, w)]
    ensures WrapperOk(m.globals, m.decorations, sig, k, numInput, size, w)
    ensures WrapperDecorationsOk(old(m.decorations), m.decorations, sig, numInput, w)
    ensures BuffersFresh(old(m.nextId), w)
  {
    var block;
    w, block := EmitBlock(m, sig, k, numInput, size);
    m.functions := m.functions + [FunctionDef(w.func, None, w.void, w.fnType, [], [block])];
    var interface := if w.index.Some? then [w.index.value.inv, w.index.value.nwg] else [];
    m.entryPoints := m.entryPoints + [EntryPoint(GLCompute, w.func, "entry_" + name, interface, (1, 1, 1))];
  }

  /**
   * AddWrapper: true, with a new wrapper, for a kernel that passes the checks;
   * true, with the module untouched, for an absent kernel whose name starts
   * with "root"; false, with the module untouched, otherwise.
   */
  method AddWrapper(m: ShaderModule, name: string, sig: Signature, numInput: nat, size: nat -> nat)
    returns (ok: bool, ghost w: Option<WrapperIds>)
    requires m.Valid()
    requires Classify(m.functions, name, sig).Generate? ==> numInput <= |Classify(m.functions, name, sig).kernel.params|
    modifies m
    ensures m.Valid()
    ensures ok <==> Classify(old(m.functions), name, sig) != Reject
    ensures !Classify(old(m.functions), name, sig).Generate? ==>
      && m.globals == old(m.globals) && m.decorations == old(m.decorations) && m.nextId == old(m.nextId)
      && m.functions == old(m.functions) && m.entryPoints == old(m.entryPoints)
    ensures w.Some? <==> Classify(old(m.functions), name, sig).Generate?
    ensures w.Some? ==>
      var k := Classify(old(m.functions), name, sig).kernel;
      && old(m.globals) <= m.globals && old(m.decorations) <= m.decorations && old(m.nextId) <= w.value.func
      && m.functions == old(m.functions) + [WrapperFunction(sig, k, w.value)]
      && m.entryPoints == old(m.entryPoints) + [WrapperEntryPoint(name, w.value)]
      && WrapperOk(m.globals, m.decorations, sig, k, numInput, size, w.value)
      && WrapperDecorationsOk(old(m.decorations), m.decorations, sig, numInput, w.value)
      && BuffersFresh(old(m.nextId), w.value)
  {
    var kernel := FindFunction(m.functions, name);
    if kernel.None? {
      ok, w := StartsWithRoot(name), None;
      return;
    }
    if !sig.kernel || sig.usrData || sig.ctxt {
      ok, w := false, None;
      return;
    }
    var ids := EmitWrapper(m, name, sig, kernel.value, numInput, size);
    ok, w := true, Some(ids);
  }

  /**
   * What the generated wrapper computes: running its block up to the end of
   * the index code with the built-in inputs set to (x, y, z) and (nx, ny, nz)
   * binds the index operand to the linear index X + Gx·(Y + Gy·Z) (mod 2^32),
   * and every input's access chain reads that element of its buffer.
   */
  lemma WrapperIndexIsLinearIndex(g: seq<Decl>, ds: seq<Decoration>, sig: Signature, k: FunctionDef, numInput: nat, size: nat -> nat, w: WrapperIds,
                                  x: nat, y: nat, z: nat, nx: nat, ny: nat, nz: nat)
    requires WrapperOk(g, ds, sig, k, numInput, size, w) && NeedsIndex(sig)
    requires x < U32 && y < U32 && z < U32 && nx < U32 && ny < U32
    ensures var ic := w.index.value;
      var block := WrapperBlock(sig, k, w);
      var n := 1 + |IndexCode(ic)|;
      && n + 2 * numInput <= |block|
      && var env := Exec(g, BuiltinMemory(ic, x, y, z, nx, ny, nz), map[], block[..n]);
      && ic.index in env && env[ic.index] == U(LinearIndex(x, y, z, nx, ny))
      && (forall i :: 0 <= i < numInput ==>
            block[n + 2 * i] == AccessChain(w.inputs[i].chain, w.inputs[i].ptrType, w.inputs[i].buffer, [w.zero, ic.index]))
  {
    WrapperIndexComputed(g, sig, k, w, x, y, z, nx, ny, nz);
    WrapperAccessChains(sig, k, w);
  }

  /**
   * The kernel's arguments, in order: argument i < numInput is the value
   * loaded from the buffer at binding i + 2 holding the type of parameter i;
   * then X, Y and Z as the signature asks for them.
   */
  lemma WrapperCallArguments(g: seq<Decl>, ds: seq<Decoration>, sig: Signature, k: FunctionDef, numInput: nat, size: nat -> nat, w: WrapperIds)
    requires WrapperOk(g, ds, sig, k, numInput, size, w)
    ensures var args := CallArgs(sig, w);
      && numInput <= |args|
      && (forall i :: 0 <= i < numInput ==>
            && args[i] == w.inputs[i].load
            && IsBuffer(g, ds, w.inputs[i].buffer, k.params[i], InputBinding(i), size(k.params[i]) % U32))
      && (forall i, j :: 0 <= i < j < numInput ==> w.inputs[i].buffer < w.inputs[j].buffer)
      && args[numInput..] == (match w.index case Some(ic) => CoordArgs(sig, ic) case None => [])
      && (!sig.x ==> |args| == numInput)
  {
    var args := CallArgs(sig, w);
    forall i | 0 <= i < numInput
      ensures args[i] == w.inputs[i].load
    {
      LoadsAt(w.inputs, i);
    }
    forall i, j | 0 <= i < j < numInput
      ensures w.inputs[i].buffer < w.inputs[j].buffer
    {
      assert InputOk(g, ds, w.inputs[j], InputBinding(j), size);
    }
  }
}
