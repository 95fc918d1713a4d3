/**
 * The mutable module the lowering works on, together with the id counter of
 * the builder that allocates fresh result ids for it. Type and constant
 * requests are interned: asking twice for the same type or constant yields
 * the same declaration.
 */
module ShaderModules {
  import opened Spirv

  /** Declarations that are interned by shape (everything but variables and forward pointers). */
  predicate Internable(d: Decl)
  {
    !d.Variable? && !d.TypeForwardPointer?
  }

  /** `d` re-labelled with result id `n`. */
  function WithId(d: Decl, n: nat): (r: Decl)
    requires HasId(d)
    ensures HasId(r) && r.id == n && Internable(r) == Internable(d)
  {
    match d
    case TypeVoid(_) => TypeVoid(n)
    case TypeInt(_, w, s) => TypeInt(n, w, s)
    case TypeVector(_, e, c) => TypeVector(n, e, c)
    case TypeRuntimeArray(_, e) => TypeRuntimeArray(n, e)
    case TypeStruct(_, ms) => TypeStruct(n, ms)
    case TypePointer(_, sc, p) => TypePointer(n, sc, p)
    case TypeFunction(_, r, ps) => TypeFunction(n, r, ps)
    case Constant(_, t, v) => Constant(n, t, v)
    case ConstantComposite(_, t, ps) => ConstantComposite(n, t, ps)
    case Variable(_, t, sc, nm, b) => Variable(n, t, sc, nm, b)
    case OtherDecl(_, op) => OtherDecl(n, op)
  }

  /** The position of the first internable declaration of the same shape as `shape`. */
  function FindShape(g: seq<Decl>, shape: Decl): (r: Option<nat>)
    requires Internable(shape)
    ensures r.Some? ==> r.value < |g| && Internable(g[r.value]) && g[r.value] == WithId(shape, g[r.value].id)
    ensures r.Some? ==> forall i :: 0 <= i < r.value ==> !(Internable(g[i]) && g[i] == WithId(shape, g[i].id))
    ensures r.None? ==> forall i :: 0 <= i < |g| ==> !(Internable(g[i]) && g[i] == WithId(shape, g[i].id))
  {
    if g == [] then None
    else if Internable(g[0]) && g[0] == WithId(shape, g[0].id) then Some(0)
    else
      match FindShape(g[1..], shape)
      case None => None
      case Some(k) => Some(k + 1)
  }

  /** `d` is an Input variable tagged as the built-in `b`. */
  predicate IsBuiltinDecl(d: Decl, b: BuiltIn)
  {
    d.Variable? && d.storage == Input && d.builtin == Some(b)
  }

  /** `id` names a built-in input variable of kind `b`. */
  ghost predicate IsBuiltinVar(g: seq<Decl>, id: nat, b: BuiltIn)
  {
    Lookup(g, id).Some? && IsBuiltinDecl(Lookup(g, id).value, b)
  }

  /** The first Input variable that is the built-in `b`. */
  function FindBuiltin(g: seq<Decl>, b: BuiltIn): (r: Option<nat>)
    ensures r.Some? ==> r.value < |g| && IsBuiltinDecl(g[r.value], b)
    ensures r.None? ==> forall i :: 0 <= i < |g| ==> !IsBuiltinDecl(g[i], b)
  {
    if g == [] then None
    else if IsBuiltinDecl(g[0], b) then Some(0)
    else
      match FindBuiltin(g[1..], b)
      case None => None
      case Some(k) => Some(k + 1)
  }

  /** Appending a declaration under the next fresh id keeps ids bounded and unique. */
  lemma ExtendFresh(g: seq<Decl>, d: Decl, n: nat)
    requires IdsBelow(g, n) && IdsUnique(g) && HasId(d) && d.id == n && n >= 1
    ensures IdsBelow(g + [d], n + 1) && IdsUnique(g + [d])
    ensures Lookup(g + [d], n) == Some(d)
  {
    LookupBeyond(g, n, n);
    LookupFresh(g, d);
    forall i | 0 <= i < |g| && HasId(g[i])
      ensures Lookup(g + [d], g[i].id) == Some(g[i])
    {
      LookupAppend(g, [d], g[i].id);
    }
    assert (g + [d])[|g|] == d;
  }

  class ShaderModule {
    /** The global section: types, constants and global variables, in order. */
    var globals: seq<Decl>
    /** Function definitions, in order of registration. */
    var functions: seq<FunctionDef>
    /** Decoration instructions, in the order they were added. */
    var decorations: seq<Decoration>
    var entryPoints: seq<EntryPoint>
    /** The builder's next fresh result id. */
    var nextId: nat

    ghost predicate Valid()
      reads this`globals, this`nextId
    {
      nextId >= 1 && IdsBelow(globals, nextId) && IdsUnique(globals)
    }

    /** Builder::MakeXxx: allocate one fresh result id. */
    method FreshId() returns (id: nat)
      requires Valid()
      modifies this`nextId
      ensures Valid()
      ensures id == old(nextId) && nextId == id + 1 && id >= 1
    {
      id := nextId;
      nextId := nextId + 1;
    }

    /** Module::getXxxType / getConstant: the interned declaration of that shape. */
    method Intern(shape: Decl) returns (id: nat)
      requires Valid() && Internable(shape)
      modifies this`globals, this`nextId
      ensures Valid()
      ensures 1 <= id < nextId
      ensures Lookup(globals, id) == Some(WithId(shape, id))
      ensures FindShape(old(globals), shape).Some? ==>
        && globals == old(globals) && nextId == old(nextId) && id < old(nextId)
        && id == old(globals)[FindShape(old(globals), shape).value].id
      ensures FindShape(old(globals), shape).None? ==>
        globals == old(globals) + [WithId(shape, id)] && id == old(nextId) && nextId == id + 1
      ensures old(globals) <= globals && old(nextId) <= nextId
    {
      var k := FindShape(globals, shape);
      if k.Some? {
        id := globals[k.value].id;
      } else {
        id := nextId;
        var d := WithId(shape, id);
        ExtendFresh(globals, d, id);
        globals := globals + [d];
        nextId := nextId + 1;
      }
    }

    /** Intern with a leaner contract, for callers that need only the declaration found or added. */
    method Obtain(shape: Decl) returns (id: nat)
      requires Valid() && Internable(shape)
      modifies this`globals, this`nextId
      ensures Valid()
      ensures old(globals) <= globals && old(nextId) <= nextId
      ensures Lookup(globals, id) == Some(WithId(shape, id))
    {
      id := Intern(shape);
    }

    /** Builder::MakeVariable followed by Module::addVariable. */
    method NewVariable(typ: nat, storage: StorageClass) returns (id: nat)
      requires Valid()
      modifies this`globals, this`nextId
      ensures Valid()
      ensures id == old(nextId) && nextId == id + 1
      ensures globals == old(globals) + [Variable(id, typ, storage, None, None)]
      ensures Lookup(globals, id) == Some(Variable(id, typ, storage, None, None))
    {
      id := nextId;
      ExtendFresh(globals, Variable(id, typ, storage, None, None), id);
      globals := globals + [Variable(id, typ, storage, None, None)];
      nextId := nextId + 1;
    }

    /** Module::getInvocationId / getNumWorkgroups: the built-in input variable, created on first use. */
    method GetBuiltin(b: BuiltIn, uint: nat) returns (id: nat)
      requires Valid()
      modifies this`globals, this`nextId
      ensures Valid()
      ensures old(globals) <= globals && old(nextId) <= nextId
      ensures IsBuiltinVar(globals, id, b)
      ensures old(FindBuiltin(globals, b)).Some? ==>
        globals == old(globals) && nextId == old(nextId) && id == old(globals[FindBuiltin(globals, b).value].id)
      ensures old(FindBuiltin(globals, b)).None? ==> old(nextId) <= id
    {
      var k := FindBuiltin(globals, b);
      if k.Some? {
        id := globals[k.value].id;
      } else {
        id := NewBuiltin(b, uint);
      }
    }

    method NewBuiltin(b: BuiltIn, uint: nat) returns (id: nat)
      requires Valid()
      modifies this`globals, this`nextId
      ensures Valid()
      ensures old(globals) <= globals && old(nextId) <= id < nextId
      ensures IsBuiltinVar(globals, id, b)
    {
      var v3 := Intern(TypeVector(0, uint, 3));
      var ptr := Intern(TypePointer(0, Input, v3));
      id := AddBuiltinVariable(ptr, b);
    }

    method AddBuiltinVariable(ptr: nat, b: BuiltIn) returns (id: nat)
      requires Valid()
      modifies this`globals, this`nextId
      ensures Valid()
      ensures globals == old(globals) + [Variable(id, ptr, Input, None, Some(b))]
      ensures id == old(nextId) && nextId == id + 1
      ensures IsBuiltinVar(globals, id, b)
    {
      id := nextId;
      var d := Variable(id, ptr, Input, None, Some(b));
      ExtendFresh(globals, d, id);
      globals := globals + [d];
      nextId := nextId + 1;
    }

    /** Instruction::decorate / memberDecorate followed by addExtraOperand. */
    method Decorate(target: nat, member: Option<nat>, kind: DecorationKind, operands: seq<nat>)
      modifies this`decorations
      ensures decorations == old(decorations) + [Decoration(target, member, kind, operands)]
    {
      decorations := decorations + [Decoration(target, member, kind, operands)];
    }
  }
}
