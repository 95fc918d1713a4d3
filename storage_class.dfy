/**
 * The storage-class normalisation pass: the front end gives every global the
 * default (Function) storage class; the pass rewrites it to Uniform on every
 * pointer type, forward pointer and variable of the global section.
 */
module StorageClassPass {
  import opened Spirv
  import opened ShaderModules

  /** StorageClassVisitor::matchAndReplace on one storage-class field. */
  function Normalize(sc: StorageClass): StorageClass
  {
    if sc == Function then Uniform else sc
  }

  /** The storage class a declaration carries, if it is of a kind that has one. */
  function StorageOf(d: Decl): Option<StorageClass>
  {
    match d
    case TypePointer(_, sc, _) => Some(sc)
    case TypeForwardPointer(_, sc) => Some(sc)
    case Variable(_, _, sc, _, _) => Some(sc)
    case _ => None
  }

  /** The visitor on one declaration: only the three storage-carrying kinds are visited. */
  function FixDecl(d: Decl): Decl
  {
    match d
    case TypePointer(id, sc, p) => TypePointer(id, Normalize(sc), p)
    case TypeForwardPointer(p, sc) => TypeForwardPointer(p, Normalize(sc))
    case Variable(id, t, sc, n, b) => Variable(id, t, Normalize(sc), n, b)
    case _ => d
  }

  /** The visitor over the whole global section. */
  function FixAll(g: seq<Decl>): seq<Decl>
  {
    if g == [] then [] else FixAll(g[..|g| - 1]) + [FixDecl(g[|g| - 1])]
  }

  /**
   * A declaration is changed exactly when it carries the Function class, and
   * then only its storage class changes, to Uniform.
   */
  lemma FixDeclChanges(d: Decl)
    ensures FixDecl(d) != d <==> StorageOf(d) == Some(Function)
    ensures StorageOf(FixDecl(d)) == (if StorageOf(d) == Some(Function) then Some(Uniform) else StorageOf(d))
    ensures HasId(FixDecl(d)) == HasId(d) && (HasId(d) ==> FixDecl(d).id == d.id)
    ensures FixDecl(d).Variable? == d.Variable? && (d.Variable? ==> FixDecl(d).name == d.name && FixDecl(d).typ == d.typ)
    ensures FixDecl(d).TypePointer? == d.TypePointer? && (d.TypePointer? ==> FixDecl(d).pointee == d.pointee)
  {
  }

  lemma {:induction false} FixAllAt(g: seq<Decl>, i: nat)
    requires i < |g|
    ensures |FixAll(g)| == |g| && FixAll(g)[i] == FixDecl(g[i])
    decreases |g|
  {
    var n := |g| - 1;
    FixAllLength(g[..n]);
    if i < n {
      FixAllAt(g[..n], i);
    }
  }

  lemma {:induction false} FixAllLength(g: seq<Decl>)
    ensures |FixAll(g)| == |g|
    decreases |g|
  {
    if g != [] {
      FixAllLength(g[..|g| - 1]);
    }
  }

  /** After the pass no global declaration carries the Function class. */
  lemma FixAllNoFunction(g: seq<Decl>)
    ensures forall i :: 0 <= i < |FixAll(g)| ==> StorageOf(FixAll(g)[i]) != Some(Function)
  {
    FixAllLength(g);
    forall i | 0 <= i < |FixAll(g)|
      ensures StorageOf(FixAll(g)[i]) != Some(Function)
    {
      FixAllAt(g, i);
      FixDeclChanges(g[i]);
    }
  }

  /** Running the pass a second time changes nothing. */
  lemma FixAllIdempotent(g: seq<Decl>)
    ensures FixAll(FixAll(g)) == FixAll(g)
  {
    FixAllLength(g);
    FixAllLength(FixAll(g));
    forall i | 0 <= i < |g|
      ensures FixAll(FixAll(g))[i] == FixAll(g)[i]
    {
      FixAllAt(g, i);
      FixAllAt(FixAll(g), i);
      FixDeclChanges(g[i]);
      FixDeclChanges(FixDecl(g[i]));
    }
  }

  /** The pass keeps every id where it is, so lookups by id see the rewritten declaration. */
  lemma {:induction false} LookupFixAll(g: seq<Decl>, id: nat)
    ensures Lookup(FixAll(g), id) == (match Lookup(g, id) case Some(d) => Some(FixDecl(d)) case None => None)
    decreases |g|
  {
    if g != [] {
      var f := FixAll(g);
      FixAllLength(g);
      FixAllAt(g, 0);
      FixDeclChanges(g[0]);
      assert f[1..] == FixAll(g[1..]) by {
        FixAllLength(g[1..]);
        forall i | 0 <= i < |g| - 1
          ensures f[1..][i] == FixAll(g[1..])[i]
        {
          FixAllAt(g, i + 1);
          FixAllAt(g[1..], i);
        }
      }
      LookupFixAll(g[1..], id);
    }
  }

  lemma {:induction false} LookupByNameFixAll(g: seq<Decl>, name: string)
    ensures LookupByName(FixAll(g), name) == LookupByName(g, name)
    decreases |g|
  {
    if g != [] {
      var f := FixAll(g);
      FixAllLength(g);
      FixAllAt(g, 0);
      FixDeclChanges(g[0]);
      assert f[1..] == FixAll(g[1..]) by {
        FixAllLength(g[1..]);
        forall i | 0 <= i < |g| - 1
          ensures f[1..][i] == FixAll(g[1..])[i]
        {
          FixAllAt(g, i + 1);
          FixAllAt(g[1..], i);
        }
      }
      LookupByNameFixAll(g[1..], name);
    }
  }

  /** The pass does not change what a variable's pointer type points to. */
  lemma VariablePointeeFixAll(g: seq<Decl>, v: nat)
    ensures VariablePointee(FixAll(g), v) == VariablePointee(g, v)
  {
    LookupFixAll(g, v);
    match Lookup(g, v)
    case Some(d) =>
      FixDeclChanges(d);
      if d.Variable? {
        LookupFixAll(g, d.typ);
        match Lookup(g, d.typ)
        case Some(p) => FixDeclChanges(p);
        case None =>
      }
    case None =>
  }

  lemma FixAllKeepsIds(g: seq<Decl>, bound: nat)
    requires IdsBelow(g, bound) && IdsUnique(g)
    ensures IdsBelow(FixAll(g), bound) && IdsUnique(FixAll(g))
  {
    FixAllLength(g);
    forall i | 0 <= i < |g|
      ensures HasId(FixAll(g)[i]) == HasId(g[i]) && (HasId(g[i]) ==> FixAll(g)[i].id == g[i].id)
      ensures HasId(g[i]) ==> Lookup(FixAll(g), g[i].id) == Some(FixAll(g)[i])
    {
      FixAllAt(g, i);
      FixDeclChanges(g[i]);
      if HasId(g[i]) {
        LookupFixAll(g, g[i].id);
      }
    }
  }

  /** One visit of the in-place traversal extends the fixed prefix by one declaration. */
  lemma FixStep(g: seq<Decl>, i: nat)
    requires i < |g|
    ensures |FixAll(g[..i]) + g[i..]| == |g|
    ensures (FixAll(g[..i]) + g[i..])[i := FixDecl(g[i])] == FixAll(g[..i + 1]) + g[i + 1..]
  {
    FixAllLength(g[..i]);
    FixAllLength(g[..i + 1]);
    assert g[..i + 1][..i] == g[..i];
    var lhs := (FixAll(g[..i]) + g[i..])[i := FixDecl(g[i])];
    var rhs := FixAll(g[..i + 1]) + g[i + 1..];
    assert FixAll(g[..i + 1]) == FixAll(g[..i]) + [FixDecl(g[i])];
    forall k | 0 <= k < |g|
      ensures lhs[k] == rhs[k]
    {
      if k < i {
        assert lhs[k] == FixAll(g[..i])[k];
        assert rhs[k] == FixAll(g[..i + 1])[k];
      }
    }
  }

  /** FixGlobalStorageClass: the visitor rewrites the global section in place. */
  method FixGlobalStorageClass(m: ShaderModule)
    requires m.Valid()
    modifies m`globals
    ensures m.Valid()
    ensures m.globals == FixAll(old(m.globals))
  {
    VisitGlobalSection(m);
    FixAllKeepsIds(old(m.globals), m.nextId);
  }

  /** The traversal of the global section, one declaration at a time. */
  method VisitGlobalSection(m: ShaderModule)
    modifies m`globals
    ensures m.globals == FixAll(old(m.globals))
  {
    ghost var g0 := m.globals;
    var i := 0;
    while i < |m.globals|
      invariant 0 <= i <= |g0| == |m.globals|
      invariant m.globals == FixAll(g0[..i]) + g0[i..]
    {
      FixStep(g0, i);
      m.globals := m.globals[i := FixDecl(m.globals[i])];
      i := i + 1;
    }
    assert g0[..i] == g0;
  }
}
