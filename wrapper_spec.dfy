/**
 * What a compute wrapper is: which kernels get one, the instructions of its
 * single block, and what that block computes.
 */
module WrapperSpec {
  import opened Spirv
  import opened Uint32
  import opened Semantics

  /** The bits of a foreach kernel's signature word that the lowering consults. */
  datatype Signature = Signature(
    input: bool, output: bool, usrData: bool,
    x: bool, y: bool, z: bool,
    kernel: bool, ctxt: bool)

  /** strncmp(name, "root", 4) == 0 */
  predicate StartsWithRoot(name: string)
  {
    |name| >= 4 && name[..4] == "root"
  }

  /** The wrapper needs the linear index when it reads inputs, writes output or passes coordinates. */
  predicate NeedsIndex(sig: Signature)
  {
    sig.input || sig.output || sig.x || sig.y || sig.z
  }

  /** What AddWrapper does for one kernel. */
  datatype Verdict =
    | Generate(kernel: FunctionDef)  // emit a wrapper around this definition, and succeed
    | Skip                           // emit nothing, and succeed
    | Reject                         // emit nothing, and fail

  /**
   * An absent kernel is tolerated only when its name starts with "root" (the
   * slot the metadata reserves for a root kernel that need not exist); a
   * present one is wrapped only if it is a new-style kernel taking neither a
   * user-data nor a context argument.
   */
  function Classify(fns: seq<FunctionDef>, name: string, sig: Signature): (r: Verdict)
    ensures r.Generate? <==> FindFunction(fns, name).Some? && sig.kernel && !sig.usrData && !sig.ctxt
    ensures r.Generate? ==> Some(r.kernel) == FindFunction(fns, name)
    ensures r == Skip <==> FindFunction(fns, name).None? && StartsWithRoot(name)
  {
    match FindFunction(fns, name)
    case None => if StartsWithRoot(name) then Skip else Reject
    case Some(k) =>
      if !sig.kernel then Reject
      else if sig.usrData then Reject
      else if sig.ctxt then Reject
      else Generate(k)
  }

  /** Ids taking part in the linear-index computation: five operands and fifteen results. */
  datatype IndexIds = IndexIds(
    uint: nat, v3: nat, inv: nat, nwg: nat, gs: nat,
    iid: nat, x: nat, y: nat, z: nat,
    gsx: nat, gsy: nat, ng: nat, ngx: nat, ngy: nat,
    gx: nat, gy: nat, rows: nat, numRows: nat, cells: nat, index: nat)

  /** Result ids come fresh in emission order; the group-size constant is none of the earlier results. */
  predicate IndexIdsOk(ic: IndexIds)
  {
    && ic.iid < ic.x < ic.y < ic.z < ic.gsx < ic.gsy < ic.ng < ic.ngx < ic.ngy
    && ic.ngy < ic.gx < ic.gy < ic.rows < ic.numRows < ic.cells < ic.index
    && ic.gs != ic.iid && ic.gs != ic.x && ic.gs != ic.y && ic.gs != ic.z && ic.gs < ic.gsx
    && ic.inv != ic.nwg
  }

  /** Load the invocation id and take its three components. */
  function InvocationCode(ic: IndexIds): seq<Inst>
  {
    [ Load(ic.iid, ic.v3, ic.inv),
      CompositeExtract(ic.x, ic.uint, ic.iid, 0),
      CompositeExtract(ic.y, ic.uint, ic.iid, 1),
      CompositeExtract(ic.z, ic.uint, ic.iid, 2) ]
  }

  /** Workgroup size components and number-of-workgroups components along X and Y. */
  function GridCode(ic: IndexIds): seq<Inst>
  {
    [ CompositeExtract(ic.gsx, ic.uint, ic.gs, 0),
      CompositeExtract(ic.gsy, ic.uint, ic.gs, 1),
      Load(ic.ng, ic.v3, ic.nwg),
      CompositeExtract(ic.ngx, ic.uint, ic.ng, 0),
      CompositeExtract(ic.ngy, ic.uint, ic.ng, 1) ]
  }

  /** gx = gsx*ngx, gy = gsy*ngy, index = gx*(y + gy*z) + x, all on 32 bits. */
  function ArithmeticCode(ic: IndexIds): seq<Inst>
  {
    [ IMul(ic.gx, ic.uint, ic.gsx, ic.ngx),
      IMul(ic.gy, ic.uint, ic.gsy, ic.ngy),
      IMul(ic.rows, ic.uint, ic.gy, ic.z),
      IAdd(ic.numRows, ic.uint, ic.y, ic.rows),
      IMul(ic.cells, ic.uint, ic.gx, ic.numRows),
      IAdd(ic.index, ic.uint, ic.cells, ic.x) ]
  }

  /** The fifteen instructions emitted for the linear index, in emission order. */
  function IndexCode(ic: IndexIds): seq<Inst>
  {
    InvocationCode(ic) + GridCode(ic) + ArithmeticCode(ic)
  }

  /** The built-in inputs: invocation id (x, y, z) and number of workgroups (nx, ny, nz). */
  function BuiltinMemory(ic: IndexIds, x: nat, y: nat, z: nat, nx: nat, ny: nat, nz: nat): map<nat, Val>
  {
    map[ic.inv := V3(x, y, z), ic.nwg := V3(nx, ny, nz)]
  }

  /** Running from an OpLoad of a built-in input. */
  lemma ExecLoadAt(g: seq<Decl>, mem: map<nat, Val>, env: map<nat, Val>, code: seq<Inst>, k: nat, id: nat, t: nat, p: nat)
    requires k < |code| && code[k] == Load(id, t, p) && p in mem
    ensures Exec(g, mem, env, code[k..]) == Exec(g, mem, env[id := mem[p]], code[k + 1..])
  {
    ExecFrom(g, mem, env, code, k);
  }

  /** Running from an OpCompositeExtract of a known component. */
  lemma ExecExtractAt(g: seq<Decl>, mem: map<nat, Val>, env: map<nat, Val>, code: seq<Inst>, k: nat,
                      id: nat, t: nat, c: nat, index: nat, v: Val, n: nat)
    requires k < |code| && code[k] == CompositeExtract(id, t, c, index)
    requires Operand(g, env, c) == Some(v) && Component(v, index) == Some(n)
    ensures Exec(g, mem, env, code[k..]) == Exec(g, mem, env[id := U(n)], code[k + 1..])
  {
    ExecFrom(g, mem, env, code, k);
  }

  lemma InvocationCodeBinds(g: seq<Decl>, ic: IndexIds, mem: map<nat, Val>, x: nat, y: nat, z: nat)
    requires IndexIdsOk(ic) && ic.inv in mem && mem[ic.inv] == V3(x, y, z)
    ensures Exec(g, mem, map[], InvocationCode(ic))
         == map[ic.iid := V3(x, y, z), ic.x := U(x), ic.y := U(y), ic.z := U(z)]
  {
    var c := InvocationCode(ic);
    var e1 := map[ic.iid := V3(x, y, z)];
    var e2 := e1[ic.x := U(x)];
    var e3 := e2[ic.y := U(y)];
    var e4 := e3[ic.z := U(z)];
    var v := V3(x, y, z);
    ExecLoadAt(g, mem, map[], c, 0, ic.iid, ic.v3, ic.inv);
    ExecExtractAt(g, mem, e1, c, 1, ic.x, ic.uint, ic.iid, 0, v, x);
    ExecExtractAt(g, mem, e2, c, 2, ic.y, ic.uint, ic.iid, 1, v, y);
    ExecExtractAt(g, mem, e3, c, 3, ic.z, ic.uint, ic.iid, 2, v, z);
    assert c[4..] == [];
    assert c[0..] == c;
  }

  lemma GridCodeBinds(g: seq<Decl>, ic: IndexIds, mem: map<nat, Val>, env: map<nat, Val>, nx: nat, ny: nat, nz: nat)
    requires IndexIdsOk(ic) && ic.nwg in mem && mem[ic.nwg] == V3(nx, ny, nz)
    requires ic.gs !in env && ConstVal(g, ic.gs) == Some(V3(1, 1, 1))
    ensures Exec(g, mem, env, GridCode(ic))
         == env[ic.gsx := U(1)][ic.gsy := U(1)][ic.ng := V3(nx, ny, nz)][ic.ngx := U(nx)][ic.ngy := U(ny)]
  {
    var c := GridCode(ic);
    var e1 := env[ic.gsx := U(1)];
    var e2 := e1[ic.gsy := U(1)];
    var e3 := e2[ic.ng := V3(nx, ny, nz)];
    var e4 := e3[ic.ngx := U(nx)];
    var e5 := e4[ic.ngy := U(ny)];
    var one := V3(1, 1, 1);
    var n := V3(nx, ny, nz);
    ExecExtractAt(g, mem, env, c, 0, ic.gsx, ic.uint, ic.gs, 0, one, 1);
    ExecExtractAt(g, mem, e1, c, 1, ic.gsy, ic.uint, ic.gs, 1, one, 1);
    ExecLoadAt(g, mem, e2, c, 2, ic.ng, ic.v3, ic.nwg);
    ExecExtractAt(g, mem, e3, c, 3, ic.ngx, ic.uint, ic.ng, 0, n, nx);
    ExecExtractAt(g, mem, e4, c, 4, ic.ngy, ic.uint, ic.ng, 1, n, ny);
    assert c[5..] == [];
    assert c[0..] == c;
  }

  /** Running from an OpIMul on two known operands. */
  lemma ExecIMulAt(g: seq<Decl>, mem: map<nat, Val>, env: map<nat, Val>, code: seq<Inst>, k: nat,
                   id: nat, t: nat, a: nat, b: nat, p: nat, q: nat)
    requires k < |code| && code[k] == IMul(id, t, a, b)
    requires a in env && env[a] == U(p) && b in env && env[b] == U(q)
    ensures Exec(g, mem, env, code[k..]) == Exec(g, mem, env[id := U(Mul32(p, q))], code[k + 1..])
  {
    ExecFrom(g, mem, env, code, k);
  }

  /** Running from an OpIAdd on two known operands. */
  lemma ExecIAddAt(g: seq<Decl>, mem: map<nat, Val>, env: map<nat, Val>, code: seq<Inst>, k: nat,
                   id: nat, t: nat, a: nat, b: nat, p: nat, q: nat)
    requires k < |code| && code[k] == IAdd(id, t, a, b)
    requires a in env && env[a] == U(p) && b in env && env[b] == U(q)
    ensures Exec(g, mem, env, code[k..]) == Exec(g, mem, env[id := U(Add32(p, q))], code[k + 1..])
  {
    ExecFrom(g, mem, env, code, k);
  }

  lemma ArithmeticCodeComputes(g: seq<Decl>, ic: IndexIds, mem: map<nat, Val>, env: map<nat, Val>, x: nat, y: nat, z: nat, nx: nat, ny: nat)
    requires IndexIdsOk(ic)
    requires ic.x in env && env[ic.x] == U(x) && ic.y in env && env[ic.y] == U(y) && ic.z in env && env[ic.z] == U(z)
    requires ic.gsx in env && env[ic.gsx] == U(1) && ic.gsy in env && env[ic.gsy] == U(1)
    requires ic.ngx in env && env[ic.ngx] == U(nx) && ic.ngy in env && env[ic.ngy] == U(ny)
    ensures var out := Exec(g, mem, env, ArithmeticCode(ic));
      && ic.index in out && out[ic.index] == U(Add32(Mul32(Mul32(1, nx), Add32(y, Mul32(Mul32(1, ny), z))), x))
      && ic.x in out && out[ic.x] == U(x) && ic.y in out && out[ic.y] == U(y) && ic.z in out && out[ic.z] == U(z)
  {
    var c := ArithmeticCode(ic);
    var gx := Mul32(1, nx);
    var gy := Mul32(1, ny);
    var rows := Mul32(gy, z);
    var e3 := env[ic.gx := U(gx)][ic.gy := U(gy)][ic.rows := U(rows)];
    ArithmeticGroups(g, ic, mem, env, z, nx, ny);
    ArithmeticCells(g, ic, mem, e3, x, y, gx, rows);
    assert c[0..] == c;
  }

  /** The first three products: the group counts along X and Y, and Gy·Z. */
  lemma ArithmeticGroups(g: seq<Decl>, ic: IndexIds, mem: map<nat, Val>, env: map<nat, Val>, z: nat, nx: nat, ny: nat)
    requires IndexIdsOk(ic)
    requires ic.z in env && env[ic.z] == U(z)
    requires ic.gsx in env && env[ic.gsx] == U(1) && ic.gsy in env && env[ic.gsy] == U(1)
    requires ic.ngx in env && env[ic.ngx] == U(nx) && ic.ngy in env && env[ic.ngy] == U(ny)
    ensures var c := ArithmeticCode(ic);
      Exec(g, mem, env, c[0..])
      == Exec(g, mem, env[ic.gx := U(Mul32(1, nx))][ic.gy := U(Mul32(1, ny))][ic.rows := U(Mul32(Mul32(1, ny), z))], c[3..])
  {
    var c := ArithmeticCode(ic);
    var gy := Mul32(1, ny);
    var e1 := env[ic.gx := U(Mul32(1, nx))];
    var e2 := e1[ic.gy := U(gy)];
    ExecIMulAt(g, mem, env, c, 0, ic.gx, ic.uint, ic.gsx, ic.ngx, 1, nx);
    ExecIMulAt(g, mem, e1, c, 1, ic.gy, ic.uint, ic.gsy, ic.ngy, 1, ny);
    ExecIMulAt(g, mem, e2, c, 2, ic.rows, ic.uint, ic.gy, ic.z, gy, z);
  }

  /** The last three steps: Y + Gy·Z, Gx times that, plus X. */
  lemma ArithmeticCells(g: seq<Decl>, ic: IndexIds, mem: map<nat, Val>, env: map<nat, Val>, x: nat, y: nat, gx: nat, rows: nat)
    requires IndexIdsOk(ic)
    requires ic.x in env && env[ic.x] == U(x) && ic.y in env && env[ic.y] == U(y)
    requires ic.gx in env && env[ic.gx] == U(gx) && ic.rows in env && env[ic.rows] == U(rows)
    ensures var out := Exec(g, mem, env, ArithmeticCode(ic)[3..]);
      out == env[ic.numRows := U(Add32(y, rows))][ic.cells := U(Mul32(gx, Add32(y, rows)))]
               [ic.index := U(Add32(Mul32(gx, Add32(y, rows)), x))]
  {
    var c := ArithmeticCode(ic);
    var numRows := Add32(y, rows);
    var cells := Mul32(gx, numRows);
    var e4 := env[ic.numRows := U(numRows)];
    var e5 := e4[ic.cells := U(cells)];
    ExecIAddAt(g, mem, env, c, 3, ic.numRows, ic.uint, ic.y, ic.rows, y, rows);
    ExecIMulAt(g, mem, e4, c, 4, ic.cells, ic.uint, ic.gx, ic.numRows, gx, numRows);
    ExecIAddAt(g, mem, e5, c, 5, ic.index, ic.uint, ic.cells, ic.x, cells, x);
    assert c[6..] == [];
  }

  /** With a workgroup size of 1 the group counts are the workgroup counts. */
  lemma UnitGroupIndex(x: nat, y: nat, z: nat, nx: nat, ny: nat)
    requires nx < U32 && ny < U32
    ensures Add32(Mul32(Mul32(1, nx), Add32(y, Mul32(Mul32(1, ny), z))), x) == LinearIndex(x, y, z, nx, ny)
  {
    assert Mul32(1, nx) == nx && Mul32(1, ny) == ny;
    WrappedIndexIsLinearIndex(x, y, z, nx, ny);
  }

  /** The environment after the invocation and grid code holds what the arithmetic reads. */
  lemma IndexEnvAfterGrid(ic: IndexIds, x: nat, y: nat, z: nat, nx: nat, ny: nat, nz: nat)
    requires IndexIdsOk(ic)
    ensures var e1 := map[ic.iid := V3(x, y, z), ic.x := U(x), ic.y := U(y), ic.z := U(z)];
      var e2 := e1[ic.gsx := U(1)][ic.gsy := U(1)][ic.ng := V3(nx, ny, nz)][ic.ngx := U(nx)][ic.ngy := U(ny)];
      && ic.gs !in e1
      && ic.x in e2 && e2[ic.x] == U(x) && ic.y in e2 && e2[ic.y] == U(y) && ic.z in e2 && e2[ic.z] == U(z)
      && ic.gsx in e2 && e2[ic.gsx] == U(1) && ic.gsy in e2 && e2[ic.gsy] == U(1)
      && ic.ngx in e2 && e2[ic.ngx] == U(nx) && ic.ngy in e2 && e2[ic.ngy] == U(ny)
  {
  }

  /**
   * Run on the built-in inputs, the emitted code binds the index result to
   * the 32-bit wrapping linear index x + gx*(y + gy*z) of the invocation, with
   * a workgroup size of 1, and the coordinate results to x, y and z.
   */
  lemma IndexCodeComputesLinearIndex(g: seq<Decl>, ic: IndexIds, x: nat, y: nat, z: nat, nx: nat, ny: nat, nz: nat)
    requires IndexIdsOk(ic) && ConstVal(g, ic.gs) == Some(V3(1, 1, 1))
    requires x < U32 && y < U32 && z < U32 && nx < U32 && ny < U32
    ensures var env := Exec(g, BuiltinMemory(ic, x, y, z, nx, ny, nz), map[], IndexCode(ic));
      && ic.index in env && env[ic.index] == U(LinearIndex(x, y, z, nx, ny))
      && ic.x in env && env[ic.x] == U(x)
      && ic.y in env && env[ic.y] == U(y)
      && ic.z in env && env[ic.z] == U(z)
  {
    var mem := BuiltinMemory(ic, x, y, z, nx, ny, nz);
    var e1 := map[ic.iid := V3(x, y, z), ic.x := U(x), ic.y := U(y), ic.z := U(z)];
    var e2 := e1[ic.gsx := U(1)][ic.gsy := U(1)][ic.ng := V3(nx, ny, nz)][ic.ngx := U(nx)][ic.ngy := U(ny)];
    InvocationCodeBinds(g, ic, mem, x, y, z);
    IndexEnvAfterGrid(ic, x, y, z, nx, ny, nz);
    GridCodeBinds(g, ic, mem, e1, nx, ny, nz);
    ArithmeticCodeComputes(g, ic, mem, e2, x, y, z, nx, ny);
    ExecConcat(g, mem, map[], InvocationCode(ic), GridCode(ic));
    ExecConcat(g, mem, map[], InvocationCode(ic) + GridCode(ic), ArithmeticCode(ic));
    UnitGroupIndex(x, y, z, nx, ny);
  }

  /**
   * Coordinates passed after the inputs: X if the kernel takes X, then Y if it
   * also takes Y, then Z if it takes all three.
   */
  function CoordArgs(sig: Signature, ic: IndexIds): (r: seq<nat>)
    ensures |r| <= 3 && r == [ic.x, ic.y, ic.z][..|r|]
    ensures |r| == (if !sig.x then 0 else if !sig.y then 1 else if !sig.z then 2 else 3)
  {
    if !sig.x then []
    else if !sig.y then [ic.x]
    else if !sig.z then [ic.x, ic.y]
    else [ic.x, ic.y, ic.z]
  }

  /** Ids of one input: its buffer variable, element pointer type, access chain and loaded value. */
  datatype InputIds = InputIds(elem: nat, buffer: nat, ptrType: nat, chain: nat, load: nat)

  /** Element `index` of the buffer's runtime array, then a load of it. */
  function InputCode(ins: seq<InputIds>, zero: nat, index: nat): (r: seq<Inst>)
    ensures |r| == 2 * |ins|
  {
    if ins == [] then []
    else InputCode(ins[..|ins| - 1], zero, index) + [
      AccessChain(ins[|ins| - 1].chain, ins[|ins| - 1].ptrType, ins[|ins| - 1].buffer, [zero, index]),
      Load(ins[|ins| - 1].load, ins[|ins| - 1].elem, ins[|ins| - 1].chain)]
  }

  function Loads(ins: seq<InputIds>): (r: seq<nat>)
    ensures |r| == |ins|
  {
    if ins == [] then [] else Loads(ins[..|ins| - 1]) + [ins[|ins| - 1].load]
  }

  /** The i-th loaded value is the one input i loads. */
  lemma {:induction false} LoadsAt(ins: seq<InputIds>, i: nat)
    requires i < |ins|
    ensures Loads(ins)[i] == ins[i].load
    decreases |ins|
  {
    var n := |ins| - 1;
    if i < n {
      LoadsAt(ins[..n], i);
    }
  }

  lemma LoadsSnoc(ins: seq<InputIds>, inp: InputIds)
    ensures Loads(ins + [inp]) == Loads(ins) + [inp.load]
  {
    assert (ins + [inp])[..|ins|] == ins;
  }

  /** Input i reads element `index` of buffer i through its own access chain. */
  lemma {:induction false} InputCodeAt(ins: seq<InputIds>, zero: nat, index: nat, i: nat)
    requires i < |ins|
    ensures InputCode(ins, zero, index)[2 * i] == AccessChain(ins[i].chain, ins[i].ptrType, ins[i].buffer, [zero, index])
    ensures InputCode(ins, zero, index)[2 * i + 1] == Load(ins[i].load, ins[i].elem, ins[i].chain)
    decreases |ins|
  {
    var n := |ins| - 1;
    if i < n {
      InputCodeAt(ins[..n], zero, index, i);
      assert ins[..n][i] == ins[i];
    }
  }

  /** Ids of the output store: buffer variable, element pointer type and access chain. */
  datatype OutputIds = OutputIds(buffer: nat, ptrType: nat, chain: nat)

  /** Every id the wrapper's block refers to. */
  datatype WrapperIds = WrapperIds(
    void: nat, fnType: nat, func: nat, blockLabel: nat, uint: nat,
    index: Option<IndexIds>, zero: nat, inputs: seq<InputIds>,
    call: nat, output: Option<OutputIds>)

  /** The index operand of the access chains: the computed index, or the null id 0 when none is computed. */
  function IndexOperand(w: WrapperIds): nat
  {
    match w.index
    case Some(ic) => ic.index
    case None => 0
  }

  /** Arguments of the kernel call: the loaded inputs in order, then the coordinates. */
  function CallArgs(sig: Signature, w: WrapperIds): seq<nat>
  {
    Loads(w.inputs) + (match w.index case Some(ic) => CoordArgs(sig, ic) case None => [])
  }

  function OutputCode(w: WrapperIds, k: FunctionDef): seq<Inst>
  {
    match w.output
    case Some(o) => [AccessChain(o.chain, o.ptrType, o.buffer, [w.zero, IndexOperand(w)]), Store(o.chain, w.call)]
    case None => []
  }

  /** The wrapper's single block: label, index, inputs, the call, the output store, return. */
  function WrapperBlock(sig: Signature, k: FunctionDef, w: WrapperIds): seq<Inst>
  {
    [Label(w.blockLabel)]
      + (match w.index case Some(ic) => IndexCode(ic) case None => [])
      + InputCode(w.inputs, w.zero, IndexOperand(w))
      + [FunctionCall(w.call, k.returnType, k.id, CallArgs(sig, w))]
      + OutputCode(w, k)
      + [Return]
  }

  /** The block as its four parts: label, body (index and inputs), call with output store, return. */
  lemma WrapperBlockParts(sig: Signature, k: FunctionDef, w: WrapperIds, body: seq<Inst>, call: seq<Inst>)
    requires body == (match w.index case Some(ic) => IndexCode(ic) case None => []) + InputCode(w.inputs, w.zero, IndexOperand(w))
    requires call == [FunctionCall(w.call, k.returnType, k.id, CallArgs(sig, w))] + OutputCode(w, k)
    ensures WrapperBlock(sig, k, w) == [Label(w.blockLabel)] + body + call + [Return]
  {
  }

  /** Where the index code and the input code sit in the block. */
  lemma WrapperBlockLayout(sig: Signature, k: FunctionDef, w: WrapperIds)
    requires w.index.Some?
    ensures var block := WrapperBlock(sig, k, w);
      var n := 1 + |IndexCode(w.index.value)|;
      var inputs := InputCode(w.inputs, w.zero, w.index.value.index);
      && n + |inputs| <= |block|
      && block[..n] == [Label(w.blockLabel)] + IndexCode(w.index.value)
      && forall j :: 0 <= j < |inputs| ==> block[n + j] == inputs[j]
  {
    var ic := w.index.value;
    var head := [Label(w.blockLabel)] + IndexCode(ic);
    var inputs := InputCode(w.inputs, w.zero, ic.index);
    var rest := inputs + ([FunctionCall(w.call, k.returnType, k.id, CallArgs(sig, w))] + OutputCode(w, k) + [Return]);
    assert WrapperBlock(sig, k, w) == head + rest;
  }

  /** Running the block up to the end of its index code binds the index operand to the linear index. */
  lemma WrapperIndexComputed(g: seq<Decl>, sig: Signature, k: FunctionDef, w: WrapperIds, x: nat, y: nat, z: nat, nx: nat, ny: nat, nz: nat)
    requires w.index.Some? && IndexIdsOk(w.index.value) && ConstVal(g, w.index.value.gs) == Some(V3(1, 1, 1))
    requires x < U32 && y < U32 && z < U32 && nx < U32 && ny < U32
    ensures var ic := w.index.value;
      var n := 1 + |IndexCode(ic)|;
      && n <= |WrapperBlock(sig, k, w)|
      && var env := Exec(g, BuiltinMemory(ic, x, y, z, nx, ny, nz), map[], WrapperBlock(sig, k, w)[..n]);
      && ic.index in env && env[ic.index] == U(LinearIndex(x, y, z, nx, ny))
  {
    var ic := w.index.value;
    var mem := BuiltinMemory(ic, x, y, z, nx, ny, nz);
    var head := [Label(w.blockLabel)] + IndexCode(ic);
    WrapperBlockLayout(sig, k, w);
    assert Exec(g, mem, map[], head) == Exec(g, mem, map[], IndexCode(ic)) by {
      assert head[0] == Label(w.blockLabel) && head[1..] == IndexCode(ic);
    }
    IndexCodeComputesLinearIndex(g, ic, x, y, z, nx, ny, nz);
  }

  /** After the index code, input i's access chain selects the index operand's element of buffer i. */
  lemma WrapperAccessChains(sig: Signature, k: FunctionDef, w: WrapperIds)
    requires w.index.Some?
    ensures var ic := w.index.value;
      var block := WrapperBlock(sig, k, w);
      var n := 1 + |IndexCode(ic)|;
      && n + 2 * |w.inputs| <= |block|
      && forall i :: 0 <= i < |w.inputs| ==>
           block[n + 2 * i] == AccessChain(w.inputs[i].chain, w.inputs[i].ptrType, w.inputs[i].buffer, [w.zero, ic.index])
  {
    var ic := w.index.value;
    assert |WrapperBlock(sig, k, w)| >= 1 + |IndexCode(ic)| + |InputCode(w.inputs, w.zero, ic.index)|;
    forall i | 0 <= i < |w.inputs|
      ensures WrapperBlock(sig, k, w)[1 + |IndexCode(ic)| + 2 * i]
           == AccessChain(w.inputs[i].chain, w.inputs[i].ptrType, w.inputs[i].buffer, [w.zero, ic.index])
    {
      WrapperAccessChainAt(sig, k, w, i);
    }
  }

  lemma WrapperAccessChainAt(sig: Signature, k: FunctionDef, w: WrapperIds, i: nat)
    requires w.index.Some? && i < |w.inputs|
    ensures var ic := w.index.value;
      var block := WrapperBlock(sig, k, w);
      var n := 1 + |IndexCode(ic)|;
      && n + 2 * |w.inputs| <= |block|
      && block[n + 2 * i] == AccessChain(w.inputs[i].chain, w.inputs[i].ptrType, w.inputs[i].buffer, [w.zero, ic.index])
  {
    var ic := w.index.value;
    var inputs := InputCode(w.inputs, w.zero, ic.index);
    WrapperBlockLayout(sig, k, w);
    assert WrapperBlock(sig, k, w)[1 + |IndexCode(ic)| + 2 * i] == inputs[2 * i];
    InputCodeAt(w.inputs, w.zero, ic.index, i);
  }

  /** The void, parameterless function that holds the block. */
  function WrapperFunction(sig: Signature, k: FunctionDef, w: WrapperIds): FunctionDef
  {
    FunctionDef(w.func, None, w.void, w.fnType, [], [WrapperBlock(sig, k, w)])
  }

  /** The GLCompute entry point: "entry_" + name, local size 1x1x1, built-ins listed when read. */
  function WrapperEntryPoint(name: string, w: WrapperIds): EntryPoint
  {
    EntryPoint(GLCompute, w.func, "entry_" + name,
      match w.index case Some(ic) => [ic.inv, ic.nwg] case None => [],
      (1, 1, 1))
  }
}
