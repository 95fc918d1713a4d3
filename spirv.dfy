/**
 * The slice of the SPIR-V module representation that the compute-wrapper
 * lowering reads and writes: declarations of the global section, decorations,
 * function bodies as instruction lists, and entry points. Every construct
 * is addressed by a numeric result id, as in the binary form; id 0 is never
 * defined and stands for a null reference.
 */
module Spirv {

  datatype Option<+T> = None | Some(value: T)

  datatype StorageClass =
    | UniformConstant | Input | Uniform | Output | Workgroup | CrossWorkgroup
    | Private | Function | Generic | PushConstant | AtomicCounter | Image
    | StorageBuffer

  /** The two built-in input variables the wrapper reads. */
  datatype BuiltIn = InvocationId | NumWorkgroups

  /**
   * A declaration of the global section. All but a forward pointer define a
   * result id; pointer types, forward pointers and variables carry a storage
   * class.
   */
  datatype Decl =
    | TypeVoid(id: nat)
    | TypeInt(id: nat, width: nat, signed: bool)
    | TypeVector(id: nat, elem: nat, count: nat)
    | TypeRuntimeArray(id: nat, elem: nat)
    | TypeStruct(id: nat, members: seq<nat>)
    | TypePointer(id: nat, storage: StorageClass, pointee: nat)
    | TypeForwardPointer(pointer: nat, storage: StorageClass)
    | TypeFunction(id: nat, result: nat, params: seq<nat>)
    | Constant(id: nat, typ: nat, value: nat)
    | ConstantComposite(id: nat, typ: nat, parts: seq<nat>)
    | Variable(id: nat, typ: nat, storage: StorageClass, name: Option<string>, builtin: Option<BuiltIn>)
    | OtherDecl(id: nat, opcode: nat)

  predicate HasId(d: Decl)
  {
    !d.TypeForwardPointer?
  }

  datatype DecorationKind = ArrayStride | BufferBlock | Offset | DescriptorSet | Binding

  /** An OpDecorate (member == None) or OpMemberDecorate (member == Some(i)). */
  datatype Decoration = Decoration(target: nat, member: Option<nat>, kind: DecorationKind, operands: seq<nat>)

  /** The instructions a wrapper body is made of. */
  datatype Inst =
    | Label(id: nat)
    | Load(id: nat, typ: nat, pointer: nat)
    | CompositeExtract(id: nat, typ: nat, composite: nat, index: nat)
    | IMul(id: nat, typ: nat, lhs: nat, rhs: nat)
    | IAdd(id: nat, typ: nat, lhs: nat, rhs: nat)
    | AccessChain(id: nat, typ: nat, base: nat, indices: seq<nat>)
    | FunctionCall(id: nat, typ: nat, callee: nat, args: seq<nat>)
    | Store(pointer: nat, object: nat)
    | Return

  /** A function definition: its parameters are given by their type ids. */
  datatype FunctionDef = FunctionDef(
    id: nat,
    name: Option<string>,
    returnType: nat,
    functionType: nat,
    params: seq<nat>,
    blocks: seq<seq<Inst>>)

  datatype ExecutionModel = GLCompute

  datatype EntryPoint = EntryPoint(
    model: ExecutionModel,
    func: nat,
    name: string,
    interface: seq<nat>,
    localSize: (nat, nat, nat))

  /** The declaration that defines `id`, the first one if several claim it. */
  function Lookup(g: seq<Decl>, id: nat): (r: Option<Decl>)
    ensures r.Some? ==> r.value in g && HasId(r.value) && r.value.id == id
    ensures r.None? ==> forall i :: 0 <= i < |g| && HasId(g[i]) ==> g[i].id != id
  {
    if g == [] then None
    else if HasId(g[0]) && g[0].id == id then Some(g[0])
    else Lookup(g[1..], id)
  }

  /** Every id the section defines is in [1, bound). */
  ghost predicate IdsBelow(g: seq<Decl>, bound: nat)
  {
    forall i :: 0 <= i < |g| && HasId(g[i]) ==> 1 <= g[i].id < bound
  }

  /** Every declaration is what its own id resolves to: no id is claimed by two different declarations. */
  ghost predicate IdsUnique(g: seq<Decl>)
  {
    forall i :: 0 <= i < |g| && HasId(g[i]) ==> Lookup(g, g[i].id) == Some(g[i])
  }

  /** No id at or above the bound resolves. */
  lemma {:induction false} LookupBeyond(g: seq<Decl>, bound: nat, id: nat)
    requires IdsBelow(g, bound) && id >= bound
    ensures Lookup(g, id).None?
  {
    if g != [] {
      assert IdsBelow(g[1..], bound) by {
        forall i | 0 <= i < |g[1..]| && HasId(g[1..][i])
          ensures 1 <= g[1..][i].id < bound
        {
          assert g[1..][i] == g[i + 1];
        }
      }
      LookupBeyond(g[1..], bound, id);
    }
  }

  /** Appending declarations never changes what an already defined id resolves to. */
  lemma {:induction false} LookupAppend(g: seq<Decl>, h: seq<Decl>, id: nat)
    requires Lookup(g, id).Some?
    ensures Lookup(g + h, id) == Lookup(g, id)
  {
    assert (g + h)[0] == g[0];
    if !(HasId(g[0]) && g[0].id == id) {
      assert (g + h)[1..] == g[1..] + h;
      LookupAppend(g[1..], h, id);
    }
  }

  /** Lookup is stable under any extension of the section. */
  lemma LookupPrefix(g: seq<Decl>, g': seq<Decl>, id: nat)
    requires g <= g' && Lookup(g, id).Some?
    ensures Lookup(g', id) == Lookup(g, id)
  {
    assert g' == g + g'[|g|..];
    LookupAppend(g, g'[|g|..], id);
  }

  /** A declaration appended under an id nobody defines is what that id resolves to. */
  lemma {:induction false} LookupFresh(g: seq<Decl>, d: Decl)
    requires HasId(d) && Lookup(g, d.id).None?
    ensures Lookup(g + [d], d.id) == Some(d)
  {
    if g != [] {
      assert (g + [d])[1..] == g[1..] + [d];
      LookupFresh(g[1..], d);
    }
  }

  /** The first variable carrying the debug name `name`. */
  function LookupByName(g: seq<Decl>, name: string): (r: Option<nat>)
    ensures r.Some? ==> exists i :: 0 <= i < |g| && g[i].Variable? && g[i].name == Some(name) && g[i].id == r.value
    ensures r.None? ==> forall i :: 0 <= i < |g| && g[i].Variable? ==> g[i].name != Some(name)
  {
    if g == [] then None
    else if g[0].Variable? && g[0].name == Some(name) then Some(g[0].id)
    else
      var r := LookupByName(g[1..], name);
      assert r.Some? ==> exists i :: 0 <= i < |g[1..]| && g[1..][i].Variable? && g[1..][i].name == Some(name) && g[1..][i].id == r.value;
      r
  }

  /** The pointee type of the pointer type of variable `v`, when both resolve. */
  function VariablePointee(g: seq<Decl>, v: nat): Option<nat>
  {
    match Lookup(g, v)
    case Some(Variable(_, t, _, _, _)) =>
      (match Lookup(g, t)
       case Some(TypePointer(_, _, p)) => Some(p)
       case _ => None)
    case _ => None
  }

  /** The first function definition registered under `name`. */
  function FindFunction(fs: seq<FunctionDef>, name: string): (r: Option<FunctionDef>)
    ensures r.Some? ==> r.value in fs && r.value.name == Some(name)
    ensures r.None? ==> forall i :: 0 <= i < |fs| ==> fs[i].name != Some(name)
  {
    if fs == [] then None
    else if fs[0].name == Some(name) then Some(fs[0])
    else FindFunction(fs[1..], name)
  }

  /** Registering an unnamed function leaves every lookup by name as it was. */
  lemma {:induction false} FindFunctionAppendUnnamed(fs: seq<FunctionDef>, f: FunctionDef, name: string)
    requires f.name.None?
    ensures FindFunction(fs + [f], name) == FindFunction(fs, name)
  {
    if fs == [] {
      assert FindFunction([f], name) == FindFunction([f][1..], name);
    } else {
      assert (fs + [f])[1..] == fs[1..] + [f];
      FindFunctionAppendUnnamed(fs[1..], f, name);
    }
  }
}
