/**
 * AddGLComputeWrappers: the driver that takes the SPIR-V of the kernels,
 * normalises storage classes, decorates the global block, wraps every
 * exported foreach kernel, and prepares the re-read module for the lowering
 * of allocation accessors. Errors: -1 when a module cannot be read back, -2
 * when its ids do not resolve, -3 at the first kernel that cannot be wrapped.
 */
module Pipeline {
  import opened Spirv
  import opened Uint32
  import opened ShaderModules
  import opened Semantics
  import opened StorageClassPass
  import opened Buffers
  import opened WrapperSpec
  import opened KernelWrapper
  import opened GlobalBuffer

  const DeserializeFailed: int := -1
  const ResolveFailed: int := -2
  const KernelFailed: int := -3

  /** One row of the foreach-kernel metadata: name, signature and input count. */
  datatype KernelInfo = KernelInfo(name: string, sig: Signature, numInput: nat)

  /** An error code, or the metadata variable handed on to the accessor lowering. */
  datatype Outcome = Failed(error: int) | Lowered(metadata: nat)

  /** The first kernel AddWrapper refuses, if any. */
  function FirstRejected(fns: seq<FunctionDef>, ks: seq<KernelInfo>): (r: Option<nat>)
    ensures r.Some? ==> r.value < |ks| && Classify(fns, ks[r.value].name, ks[r.value].sig) == Reject
    ensures r.Some? ==> forall j :: 0 <= j < r.value ==> Classify(fns, ks[j].name, ks[j].sig) != Reject
    ensures r.None? ==> forall j :: 0 <= j < |ks| ==> Classify(fns, ks[j].name, ks[j].sig) != Reject
  {
    if ks == [] then None
    else if Classify(fns, ks[0].name, ks[0].sig) == Reject then Some(0)
    else match FirstRejected(fns, ks[1..])
      case Some(i) => Some(i + 1)
      case None => None
  }

  /** The entry-point names the kernels produce, in order: "entry_" + name for each kernel that is wrapped. */
  function EntryNamesFor(fns: seq<FunctionDef>, ks: seq<KernelInfo>): (r: seq<string>)
    ensures |r| <= |ks|
  {
    if ks == [] then []
    else
      var n := |ks| - 1;
      EntryNamesFor(fns, ks[..n]) + (if Classify(fns, ks[n].name, ks[n].sig).Generate? then ["entry_" + ks[n].name] else [])
  }

  function EntryNames(eps: seq<EntryPoint>): (r: seq<string>)
    ensures |r| == |eps|
  {
    if eps == [] then [] else EntryNames(eps[..|eps| - 1]) + [eps[|eps| - 1].name]
  }

  /** Every wrapped kernel gets one entry point, and only wrapped kernels do. */
  lemma {:induction false} EntryNamesCount(fns: seq<FunctionDef>, ks: seq<KernelInfo>)
    requires forall j :: 0 <= j < |ks| ==> FindFunction(fns, ks[j].name).Some? && ks[j].sig.kernel && !ks[j].sig.usrData && !ks[j].sig.ctxt
    ensures |EntryNamesFor(fns, ks)| == |ks|
    ensures forall j :: 0 <= j < |ks| ==> EntryNamesFor(fns, ks)[j] == "entry_" + ks[j].name
    decreases |ks|
  {
    if ks != [] {
      var n := |ks| - 1;
      var prefix := ks[..n];
      assert forall j :: 0 <= j < n ==> prefix[j] == ks[j];
      EntryNamesCount(fns, prefix);
      assert EntryNamesFor(fns, ks) == EntryNamesFor(fns, prefix) + ["entry_" + ks[n].name];
    }
  }

  /** The two function lists resolve every name alike. */
  ghost predicate SameFunctions(fs: seq<FunctionDef>, fs': seq<FunctionDef>)
  {
    forall name :: FindFunction(fs, name) == FindFunction(fs', name)
  }

  /** The entry point kernel `k` adds: its wrapper's, when it got one. */
  function KernelEntryPoints(k: KernelInfo, w: Option<WrapperIds>): seq<EntryPoint>
  {
    match w
    case Some(x) => [WrapperEntryPoint(k.name, x)]
    case None => []
  }

  /** The function kernel `k` adds: its wrapper, when it got one. */
  function KernelFunctions(fns: seq<FunctionDef>, k: KernelInfo, w: Option<WrapperIds>): seq<FunctionDef>
  {
    match (Classify(fns, k.name, k.sig), w)
    case (Generate(kernel), Some(x)) => [WrapperFunction(k.sig, kernel, x)]
    case _ => []
  }

  /** The Binding decorations a wrapper adds: its inputs at 2, 3, ..., then its output at 1. */
  function KernelBindings(w: Option<WrapperIds>): seq<Decoration>
  {
    match w
    case Some(x) => InputBindings(x.inputs) + OutputBindings(x.output)
    case None => []
  }

  /** Five decorations for each buffer a wrapper adds. */
  function KernelDecorationCount(k: KernelInfo, w: Option<WrapperIds>): nat
  {
    if w.Some? then 5 * (k.numInput + if k.sig.output then 1 else 0) else 0
  }

  /** The entry points the kernel loop adds for `ks`, `ws[j]` being kernel j's wrapper when it got one. */
  function LoopEntryPoints(ks: seq<KernelInfo>, ws: seq<Option<WrapperIds>>): (r: seq<EntryPoint>)
    requires |ws| == |ks|
    ensures |r| <= |ks|
  {
    if ks == [] then []
    else
      var n := |ks| - 1;
      LoopEntryPoints(ks[..n], ws[..n]) + KernelEntryPoints(ks[n], ws[n])
  }

  /** The wrapper functions the kernel loop adds, in order. */
  function LoopFunctions(fns: seq<FunctionDef>, ks: seq<KernelInfo>, ws: seq<Option<WrapperIds>>): (r: seq<FunctionDef>)
    requires |ws| == |ks|
    ensures |r| <= |ks|
  {
    if ks == [] then []
    else
      var n := |ks| - 1;
      LoopFunctions(fns, ks[..n], ws[..n]) + KernelFunctions(fns, ks[n], ws[n])
  }

  /** The Binding decorations the kernel loop adds, wrapper by wrapper. */
  function LoopBindings(ws: seq<Option<WrapperIds>>): seq<Decoration>
  {
    if ws == [] then [] else LoopBindings(ws[..|ws| - 1]) + KernelBindings(ws[|ws| - 1])
  }

  /** How many decorations the kernel loop adds. */
  function LoopDecorationCount(ks: seq<KernelInfo>, ws: seq<Option<WrapperIds>>): nat
    requires |ws| == |ks|
  {
    if ks == [] then 0
    else
      var n := |ks| - 1;
      LoopDecorationCount(ks[..n], ws[..n]) + KernelDecorationCount(ks[n], ws[n])
  }

  /**
   * Kernel `k` got wrapper `w` exactly when Classify says to generate one,
   * and that wrapper is everything AddWrapper promises.
   */
  ghost predicate WrappedAs(g: seq<Decl>, ds: seq<Decoration>, fns: seq<FunctionDef>, k: KernelInfo, w: Option<WrapperIds>, size: nat -> nat)
  {
    match Classify(fns, k.name, k.sig)
    case Generate(kernel) => w.Some? && WrapperOk(g, ds, k.sig, kernel, k.numInput, size, w.value)
    case _ => w.None?
  }

  ghost predicate AllWrappedAs(g: seq<Decl>, ds: seq<Decoration>, fns: seq<FunctionDef>, ks: seq<KernelInfo>, ws: seq<Option<WrapperIds>>, size: nat -> nat)
  {
    |ws| == |ks| && forall j :: 0 <= j < |ks| ==> WrappedAs(g, ds, fns, ks[j], ws[j], size)
  }

  /** Exactly the kernels Classify says to generate got a wrapper. */
  ghost predicate WrappedWhere(fns: seq<FunctionDef>, ks: seq<KernelInfo>, ws: seq<Option<WrapperIds>>)
  {
    |ws| == |ks| && forall j :: 0 <= j < |ks| ==> (ws[j].Some? <==> Classify(fns, ks[j].name, ks[j].sig).Generate?)
  }

  lemma AllWrappedAsWhere(g: seq<Decl>, ds: seq<Decoration>, fns: seq<FunctionDef>, ks: seq<KernelInfo>, ws: seq<Option<WrapperIds>>, size: nat -> nat)
    requires AllWrappedAs(g, ds, fns, ks, ws, size)
    ensures WrappedWhere(fns, ks, ws)
  {
    forall j | 0 <= j < |ks|
      ensures ws[j].Some? <==> Classify(fns, ks[j].name, ks[j].sig).Generate?
    {
      assert WrappedAs(g, ds, fns, ks[j], ws[j], size);
    }
  }

  /**
   * Decorations `ds`, entry points `eps` and functions `fs` hold what the
   * kernel loop adds for `ks`, wrappers `ws`, on top of entry points `e0`,
   * functions `fns`, bindings `b0` and `c0` decorations: one entry point and
   * one function per wrapper, its bindings, and five decorations per buffer.
   */
  ghost predicate LoopLists(ds: seq<Decoration>, eps: seq<EntryPoint>, fs: seq<FunctionDef>,
                            fns: seq<FunctionDef>, ks: seq<KernelInfo>, ws: seq<Option<WrapperIds>>,
                            e0: seq<EntryPoint>, b0: seq<Decoration>, c0: nat)
  {
    && |ws| == |ks|
    && eps == e0 + LoopEntryPoints(ks, ws)
    && fs == fns + LoopFunctions(fns, ks, ws)
    && Bindings(ds) == b0 + LoopBindings(ws)
    && |ds| == c0 + LoopDecorationCount(ks, ws)
  }

  lemma WrappedAsGrow(g: seq<Decl>, g': seq<Decl>, ds: seq<Decoration>, ds': seq<Decoration>,
                      fns: seq<FunctionDef>, k: KernelInfo, w: Option<WrapperIds>, size: nat -> nat)
    requires g <= g' && ds <= ds' && WrappedAs(g, ds, fns, k, w, size)
    ensures WrappedAs(g', ds', fns, k, w, size)
  {
    if Classify(fns, k.name, k.sig).Generate? {
      WrapperOkGrow(g, g', ds, ds', k.sig, Classify(fns, k.name, k.sig).kernel, k.numInput, size, w.value);
    }
  }

  /** One more kernel: the wrappers so far stay well formed next to the new one. */
  lemma AllWrappedAsStep(g: seq<Decl>, g': seq<Decl>, ds: seq<Decoration>, ds': seq<Decoration>,
                         fns: seq<FunctionDef>, ks: seq<KernelInfo>, ws: seq<Option<WrapperIds>>, i: nat, w: Option<WrapperIds>, size: nat -> nat)
    requires i < |ks| && |ws| == i && g <= g' && ds <= ds'
    requires AllWrappedAs(g, ds, fns, ks[..i], ws, size) && WrappedAs(g', ds', fns, ks[i], w, size)
    ensures AllWrappedAs(g', ds', fns, ks[..i + 1], ws + [w], size)
  {
    forall j | 0 <= j < i
      ensures WrappedAs(g', ds', fns, ks[j], ws[j], size)
    {
      assert ks[..i][j] == ks[j];
      WrappedAsGrow(g, g', ds, ds', fns, ks[j], ws[j], size);
    }
  }

  /** One more kernel: each list the loop adds grows by that kernel's share. */
  lemma LoopListsStep(ds: seq<Decoration>, eps: seq<EntryPoint>, fs: seq<FunctionDef>,
                      ds': seq<Decoration>, eps': seq<EntryPoint>, fs': seq<FunctionDef>,
                      fns: seq<FunctionDef>, ks: seq<KernelInfo>, ws: seq<Option<WrapperIds>>, i: nat, w: Option<WrapperIds>,
                      e0: seq<EntryPoint>, b0: seq<Decoration>, c0: nat)
    requires i < |ks| && |ws| == i && LoopLists(ds, eps, fs, fns, ks[..i], ws, e0, b0, c0)
    requires eps' == eps + KernelEntryPoints(ks[i], w) && fs' == fs + KernelFunctions(fns, ks[i], w)
    requires Bindings(ds') == Bindings(ds) + KernelBindings(w) && |ds'| == |ds| + KernelDecorationCount(ks[i], w)
    ensures LoopLists(ds', eps', fs', fns, ks[..i + 1], ws + [w], e0, b0, c0)
  {
    LoopSnoc(fns, ks, ws, i, w);
    var l, k := LoopEntryPoints(ks[..i], ws), KernelEntryPoints(ks[i], w);
    AppendAssoc(e0, l, k);
    var lf, kf := LoopFunctions(fns, ks[..i], ws), KernelFunctions(fns, ks[i], w);
    AppendAssoc(fns, lf, kf);
    var lb, kb := LoopBindings(ws), KernelBindings(w);
    AppendAssoc(b0, lb, kb);
  }

  /** The loop's lists for one more kernel, one unfolding each. */
  lemma LoopSnoc(fns: seq<FunctionDef>, ks: seq<KernelInfo>, ws: seq<Option<WrapperIds>>, i: nat, w: Option<WrapperIds>)
    requires i < |ks| && |ws| == i
    ensures LoopEntryPoints(ks[..i + 1], ws + [w]) == LoopEntryPoints(ks[..i], ws) + KernelEntryPoints(ks[i], w)
    ensures LoopFunctions(fns, ks[..i + 1], ws + [w]) == LoopFunctions(fns, ks[..i], ws) + KernelFunctions(fns, ks[i], w)
    ensures LoopBindings(ws + [w]) == LoopBindings(ws) + KernelBindings(w)
    ensures LoopDecorationCount(ks[..i + 1], ws + [w]) == LoopDecorationCount(ks[..i], ws) + KernelDecorationCount(ks[i], w)
  {
    assert ks[..i + 1][..i] == ks[..i];
    assert (ws + [w])[..i] == ws;
  }

  lemma AppendAssoc<T>(a: seq<T>, b: seq<T>, c: seq<T>)
    ensures a + b + c == a + (b + c)
  {
  }

  lemma {:induction false} EntryNamesAppend(a: seq<EntryPoint>, b: seq<EntryPoint>)
    ensures EntryNames(a + b) == EntryNames(a) + EntryNames(b)
    decreases |b|
  {
    if b == [] {
      assert a + b == a;
    } else {
      var n := |b| - 1;
      assert (a + b)[..|a| + n] == a + b[..n];
      EntryNamesAppend(a, b[..n]);
    }
  }

  /** The entry points the loop adds carry exactly the names EntryNamesFor lists. */
  lemma {:induction false} LoopEntryNames(fns: seq<FunctionDef>, ks: seq<KernelInfo>, ws: seq<Option<WrapperIds>>)
    requires WrappedWhere(fns, ks, ws)
    ensures EntryNames(LoopEntryPoints(ks, ws)) == EntryNamesFor(fns, ks)
    decreases |ks|
  {
    if ks != [] {
      var n := |ks| - 1;
      assert forall j :: 0 <= j < n ==> ks[..n][j] == ks[j] && ws[..n][j] == ws[j];
      LoopEntryNames(fns, ks[..n], ws[..n]);
      var p, q := LoopEntryPoints(ks[..n], ws[..n]), KernelEntryPoints(ks[n], ws[n]);
      EntryNamesAppend(p, q);
      assert EntryNames(q) == if Classify(fns, ks[n].name, ks[n].sig).Generate? then ["entry_" + ks[n].name] else [];
    }
  }

  /**
   * After the kernel loop, the entry points it added follow the old ones:
   * named as EntryNamesFor lists, each a wrapper's GLCompute entry point.
   */
  lemma LoopEntryPointsAdded(g: seq<Decl>, ds: seq<Decoration>, eps: seq<EntryPoint>, fs: seq<FunctionDef>,
                             fns: seq<FunctionDef>, ks: seq<KernelInfo>, ws: seq<Option<WrapperIds>>, size: nat -> nat,
                             e0: seq<EntryPoint>, b0: seq<Decoration>, c0: nat)
    requires AllWrappedAs(g, ds, fns, ks, ws, size) && LoopLists(ds, eps, fs, fns, ks, ws, e0, b0, c0)
    ensures e0 <= eps
    ensures EntryNames(eps[|e0|..]) == EntryNamesFor(fns, ks)
    ensures forall e :: e in eps[|e0|..] ==> WrapperEntryOk(g, e)
  {
    assert eps[|e0|..] == LoopEntryPoints(ks, ws);
    AllWrappedAsWhere(g, ds, fns, ks, ws, size);
    LoopEntryNames(fns, ks, ws);
    LoopEntryPointsOk(g, ds, fns, ks, ws, size);
  }

  /** A GLCompute entry point of local size 1x1x1 whose interface, when not empty, is the two index built-ins. */
  ghost predicate WrapperEntryOk(g: seq<Decl>, e: EntryPoint)
  {
    && e.model == GLCompute && e.localSize == (1, 1, 1)
    && (e.interface == [] || (|e.interface| == 2 && IsBuiltinVar(g, e.interface[0], InvocationId) && IsBuiltinVar(g, e.interface[1], NumWorkgroups)))
  }

  /**
   * A kernel that is wrapped gets one entry point: "entry_" + its name, on
   * its wrapper function, local size 1x1x1, listing the invocation-id and
   * workgroup-count built-ins exactly when the kernel takes an input, an
   * output or a coordinate.
   */
  lemma WrappedKernelEntryPoint(g: seq<Decl>, ds: seq<Decoration>, fns: seq<FunctionDef>, k: KernelInfo, w: Option<WrapperIds>, size: nat -> nat)
    requires WrappedAs(g, ds, fns, k, w, size) && Classify(fns, k.name, k.sig).Generate?
    ensures w.Some? && |KernelEntryPoints(k, w)| == 1
    ensures var e := KernelEntryPoints(k, w)[0];
      && e.name == "entry_" + k.name && e.func == w.value.func
      && WrapperEntryOk(g, e)
      && (e.interface != [] <==> NeedsIndex(k.sig))
  {
    var kernel := Classify(fns, k.name, k.sig).kernel;
    assert WrapperOk(g, ds, k.sig, kernel, k.numInput, size, w.value);
  }

  /** Every entry point the kernel loop adds is a wrapper's GLCompute entry point of local size 1x1x1. */
  lemma {:induction false} LoopEntryPointsOk(g: seq<Decl>, ds: seq<Decoration>, fns: seq<FunctionDef>, ks: seq<KernelInfo>,
                                             ws: seq<Option<WrapperIds>>, size: nat -> nat)
    requires AllWrappedAs(g, ds, fns, ks, ws, size)
    ensures forall e :: e in LoopEntryPoints(ks, ws) ==> WrapperEntryOk(g, e)
    decreases |ks|
  {
    if ks != [] {
      var n := |ks| - 1;
      assert forall j :: 0 <= j < n ==> ks[..n][j] == ks[j] && ws[..n][j] == ws[j];
      LoopEntryPointsOk(g, ds, fns, ks[..n], ws[..n], size);
      assert WrappedAs(g, ds, fns, ks[n], ws[n], size);
      if ws[n].Some? {
        WrappedKernelEntryPoint(g, ds, fns, ks[n], ws[n], size);
      }
    }
  }

  /**
   * The metadata demands this of its kernels: a kernel the loop reaches and
   * wraps (no earlier kernel refused) has at least as many parameters as inputs.
   */
  ghost predicate KernelsFit(fns: seq<FunctionDef>, ks: seq<KernelInfo>)
  {
    var stop := if FirstRejected(fns, ks).Some? then FirstRejected(fns, ks).value else |ks|;
    forall j :: 0 <= j < stop ==> KernelFits(fns, ks[j])
  }

  /** A kernel that is wrapped has at least as many parameters as inputs. */
  ghost predicate KernelFits(fns: seq<FunctionDef>, k: KernelInfo)
  {
    Classify(fns, k.name, k.sig).Generate? ==> k.numInput <= |Classify(fns, k.name, k.sig).kernel.params|
  }

  /** Normalising storage classes keeps "__GPUBlock" and what its pointer type points to. */
  lemma BlockTypedFixAll(g: seq<Decl>)
    requires BlockTyped(g)
    ensures LookupByName(FixAll(g), GlobalBlockName) == LookupByName(g, GlobalBlockName)
    ensures LookupByName(g, GlobalBlockName).Some? ==>
      VariablePointee(FixAll(g), LookupByName(g, GlobalBlockName).value) == VariablePointee(g, LookupByName(g, GlobalBlockName).value)
    ensures BlockTyped(FixAll(g))
  {
    LookupByNameFixAll(g, GlobalBlockName);
    if LookupByName(g, GlobalBlockName).Some? {
      VariablePointeeFixAll(g, LookupByName(g, GlobalBlockName).value);
    }
  }

  /**
   * The kernel loop: AddWrapper on each kernel in turn, stopping at the first
   * refusal. Wrappers are unnamed, so every kernel is classified against the
   * functions the module had before the loop. `ws[j]` is the wrapper kernel j
   * got, if any.
   */
  method AddWrappers(m: ShaderModule, ks: seq<KernelInfo>, size: nat -> nat) returns (ok: bool, ghost ws: seq<Option<WrapperIds>>)
    requires m.Valid() && KernelsFit(m.functions, ks)
    modifies m
    ensures m.Valid()
    ensures ok <==> FirstRejected(old(m.functions), ks).None?
    ensures old(m.globals) <= m.globals && old(m.decorations) <= m.decorations
    ensures SameFunctions(m.functions, old(m.functions))
    ensures var stop := if ok then |ks| else FirstRejected(old(m.functions), ks).value;
      && |ws| == stop
      && AllWrappedAs(m.globals, m.decorations, old(m.functions), ks[..stop], ws, size)
      && LoopLists(m.decorations, m.entryPoints, m.functions, old(m.functions), ks[..stop], ws,
                   old(m.entryPoints), Bindings(old(m.decorations)), |old(m.decorations)|)
  {
    ghost var fns := m.functions;
    ws := [];
    var i := 0;
    while i < |ks|
      invariant m.Valid() && i <= |ks| && |ws| == i
      invariant old(m.globals) <= m.globals && old(m.decorations) <= m.decorations
      invariant SameFunctions(m.functions, fns)
      invariant forall j :: 0 <= j < i ==> Classify(fns, ks[j].name, ks[j].sig) != Reject
      invariant AllWrappedAs(m.globals, m.decorations, fns, ks[..i], ws, size)
      invariant LoopLists(m.decorations, m.entryPoints, m.functions, fns, ks[..i], ws,
                          old(m.entryPoints), Bindings(old(m.decorations)), |old(m.decorations)|)
    {
      ok, ws := KernelTurn(m, ks, i, size, fns, ws, old(m.entryPoints), Bindings(old(m.decorations)), |old(m.decorations)|);
      if !ok {
        return;
      }
      i := i + 1;
    }
    assert ks[..i] == ks;
    FirstRejectedNone(fns, ks);
    ok := true;
  }

  /** The kernel the loop reaches, after no refusal, fits. */
  lemma KernelsFitAt(fns: seq<FunctionDef>, ks: seq<KernelInfo>, i: nat)
    requires KernelsFit(fns, ks) && i < |ks|
    requires forall j :: 0 <= j < i ==> Classify(fns, ks[j].name, ks[j].sig) != Reject
    ensures KernelFits(fns, ks[i])
  {
    if Classify(fns, ks[i].name, ks[i].sig).Generate? && FirstRejected(fns, ks).Some? {
      var r := FirstRejected(fns, ks).value;
      if r < i {
        assert false;
      }
      assert r != i;
    }
  }

  lemma EntryNamesForStep(fns: seq<FunctionDef>, ks: seq<KernelInfo>, i: nat)
    requires i < |ks|
    ensures EntryNamesFor(fns, ks[..i + 1])
         == EntryNamesFor(fns, ks[..i]) + (if Classify(fns, ks[i].name, ks[i].sig).Generate? then ["entry_" + ks[i].name] else [])
  {
    assert ks[..i + 1][..i] == ks[..i];
  }

  lemma FirstRejectedAt(fns: seq<FunctionDef>, ks: seq<KernelInfo>, i: nat)
    requires i < |ks| && Classify(fns, ks[i].name, ks[i].sig) == Reject
    requires forall j :: 0 <= j < i ==> Classify(fns, ks[j].name, ks[j].sig) != Reject
    ensures FirstRejected(fns, ks) == Some(i)
  {
  }

  lemma FirstRejectedNone(fns: seq<FunctionDef>, ks: seq<KernelInfo>)
    requires forall j :: 0 <= j < |ks| ==> Classify(fns, ks[j].name, ks[j].sig) != Reject
    ensures FirstRejected(fns, ks) == None
  {
  }

  /** Turn i of the kernel loop, with the loop's facts carried over it. */
  method KernelTurn(m: ShaderModule, ks: seq<KernelInfo>, i: nat, size: nat -> nat, ghost fns: seq<FunctionDef>,
                    ghost ws: seq<Option<WrapperIds>>, ghost e0: seq<EntryPoint>, ghost b0: seq<Decoration>, ghost c0: nat)
    returns (ok: bool, ghost ws': seq<Option<WrapperIds>>)
    requires m.Valid() && i < |ks| && |ws| == i && SameFunctions(m.functions, fns) && KernelsFit(fns, ks)
    requires forall j :: 0 <= j < i ==> Classify(fns, ks[j].name, ks[j].sig) != Reject
    requires AllWrappedAs(m.globals, m.decorations, fns, ks[..i], ws, size)
    requires LoopLists(m.decorations, m.entryPoints, m.functions, fns, ks[..i], ws, e0, b0, c0)
    modifies m
    ensures m.Valid()
    ensures ok <==> Classify(fns, ks[i].name, ks[i].sig) != Reject
    ensures !ok ==> FirstRejected(fns, ks) == Some(i)
    ensures ok ==> forall j :: 0 <= j < i + 1 ==> Classify(fns, ks[j].name, ks[j].sig) != Reject
    ensures old(m.globals) <= m.globals && old(m.decorations) <= m.decorations
    ensures SameFunctions(m.functions, fns)
    ensures |ws'| == if ok then i + 1 else i
    ensures AllWrappedAs(m.globals, m.decorations, fns, ks[..|ws'|], ws', size)
    ensures LoopLists(m.decorations, m.entryPoints, m.functions, fns, ks[..|ws'|], ws', e0, b0, c0)
  {
    KernelsFitAt(fns, ks, i);
    ghost var g, ds, eps, fs := m.globals, m.decorations, m.entryPoints, m.functions;
    ghost var w;
    ok, w := AddKernel(m, ks[i], size, fns);
    if ok {
      AllWrappedAsStep(g, m.globals, ds, m.decorations, fns, ks, ws, i, w, size);
      LoopListsStep(ds, eps, fs, m.decorations, m.entryPoints, m.functions, fns, ks, ws, i, w, e0, b0, c0);
      ws' := ws + [w];
    } else {
      FirstRejectedAt(fns, ks, i);
      ws' := ws;
    }
  }

  /** One turn of the kernel loop. */
  method AddKernel(m: ShaderModule, k: KernelInfo, size: nat -> nat, ghost fns: seq<FunctionDef>)
    returns (ok: bool, ghost w: Option<WrapperIds>)
    requires m.Valid()
    requires SameFunctions(m.functions, fns)
    requires KernelFits(fns, k)
    modifies m
    ensures m.Valid()
    ensures ok <==> Classify(fns, k.name, k.sig) != Reject
    ensures old(m.globals) <= m.globals && old(m.decorations) <= m.decorations
    ensures !Classify(fns, k.name, k.sig).Generate? ==> m.globals == old(m.globals) && m.decorations == old(m.decorations)
    ensures SameFunctions(m.functions, fns)
    ensures WrappedAs(m.globals, m.decorations, fns, k, w, size)
    ensures m.entryPoints == old(m.entryPoints) + KernelEntryPoints(k, w)
    ensures m.functions == old(m.functions) + KernelFunctions(fns, k, w)
    ensures Bindings(m.decorations) == Bindings(old(m.decorations)) + KernelBindings(w)
    ensures |m.decorations| == |old(m.decorations)| + KernelDecorationCount(k, w)
  {
    assert Classify(m.functions, k.name, k.sig) == Classify(fns, k.name, k.sig);
    ghost var ds, eps, fs := m.decorations, m.entryPoints, m.functions;
    ok, w := AddWrapper(m, k.name, k.sig, k.numInput, size);
    if w.Some? {
      forall name
        ensures FindFunction(m.functions, name) == FindFunction(fns, name)
      {
        FindFunctionAppendUnnamed(fs, WrapperFunction(k.sig, Classify(fns, k.name, k.sig).kernel, w.value), name);
      }
      WrapperAdded(ds, eps, fs, m.globals, m.decorations, m.entryPoints, m.functions, fns, k, w.value, size);
    } else {
      NothingAdded(ds, eps, fs, k, fns);
    }
  }

  /** What AddWrapper promises for a wrapped kernel, stated as the loop's share for that kernel. */
  lemma WrapperAdded(ds: seq<Decoration>, eps: seq<EntryPoint>, fs: seq<FunctionDef>,
                     g': seq<Decl>, ds': seq<Decoration>, eps': seq<EntryPoint>, fs': seq<FunctionDef>,
                     fns: seq<FunctionDef>, k: KernelInfo, w: WrapperIds, size: nat -> nat)
    requires Classify(fns, k.name, k.sig).Generate?
    requires eps' == eps + [WrapperEntryPoint(k.name, w)]
    requires fs' == fs + [WrapperFunction(k.sig, Classify(fns, k.name, k.sig).kernel, w)]
    requires WrapperOk(g', ds', k.sig, Classify(fns, k.name, k.sig).kernel, k.numInput, size, w)
    requires WrapperDecorationsOk(ds, ds', k.sig, k.numInput, w)
    ensures WrappedAs(g', ds', fns, k, Some(w), size)
    ensures eps' == eps + KernelEntryPoints(k, Some(w)) && fs' == fs + KernelFunctions(fns, k, Some(w))
    ensures Bindings(ds') == Bindings(ds) + KernelBindings(Some(w)) && |ds'| == |ds| + KernelDecorationCount(k, Some(w))
  {
    AppendAssoc(Bindings(ds), InputBindings(w.inputs), OutputBindings(w.output));
  }

  lemma NothingAdded(ds: seq<Decoration>, eps: seq<EntryPoint>, fs: seq<FunctionDef>, k: KernelInfo, fns: seq<FunctionDef>)
    ensures eps == eps + KernelEntryPoints(k, None) && fs == fs + KernelFunctions(fns, k, None)
    ensures Bindings(ds) == Bindings(ds) + KernelBindings(None) && |ds| == |ds| + KernelDecorationCount(k, None)
  {
    assert eps + [] == eps && fs + [] == fs && Bindings(ds) + [] == Bindings(ds);
  }

  /** getUnsignedIntType(32), getConstant(0) and getConstant(1). */
  method UintConstants(m: ShaderModule) returns (uint: nat, zero: nat, one: nat)
    requires m.Valid()
    modifies m`globals, m`nextId
    ensures m.Valid()
    ensures old(m.globals) <= m.globals
    ensures Lookup(m.globals, uint) == Some(TypeInt(uint, 32, false))
    ensures ConstVal(m.globals, zero) == Some(U(0)) && ConstVal(m.globals, one) == Some(U(1))
  {
    uint := m.Obtain(TypeInt(0, 32, false));
    ghost var g1 := m.globals;
    zero := m.Obtain(Constant(0, uint, 0));
    ghost var g2 := m.globals;
    one := m.Obtain(Constant(0, uint, 1));
    LookupPrefix(g1, m.globals, uint);
    LookupPrefix(g2, m.globals, zero);
  }

  /** The uint constants, then getPointerType(Uniform, uint). */
  method UintAccessorTypes(m: ShaderModule) returns (uint: nat, zero: nat, one: nat, ptr: nat)
    requires m.Valid()
    modifies m`globals, m`nextId
    ensures m.Valid()
    ensures old(m.globals) <= m.globals
    ensures Lookup(m.globals, uint) == Some(TypeInt(uint, 32, false))
    ensures ConstVal(m.globals, zero) == Some(U(0)) && ConstVal(m.globals, one) == Some(U(1))
    ensures Lookup(m.globals, ptr) == Some(TypePointer(ptr, Uniform, uint))
  {
    uint, zero, one := UintConstants(m);
    ghost var g := m.globals;
    ptr := m.Obtain(TypePointer(0, Uniform, uint));
    LookupPrefix(g, m.globals, uint);
    ConstValGrow(g, m.globals, zero);
    ConstValGrow(g, m.globals, one);
  }

  /**
   * The second module, read back after the built-ins are translated: the
   * metadata buffer, then the uint type, the constants 0 and 1 and the
   * Uniform pointer to uint that the accessor lowering uses.
   */
  method PrepareAccessors(m: ShaderModule) returns (metadata: nat, uint: nat, zero: nat, one: nat, ptr: nat)
    requires m.Valid()
    modifies m`globals, m`nextId, m`decorations
    ensures m.Valid()
    ensures old(m.globals) <= m.globals && old(m.decorations) <= m.decorations
    ensures IsMetadataBuffer(m.globals, m.decorations, metadata)
    ensures Lookup(m.globals, uint) == Some(TypeInt(uint, 32, false))
    ensures ConstVal(m.globals, zero) == Some(U(0)) && ConstVal(m.globals, one) == Some(U(1))
    ensures Lookup(m.globals, ptr) == Some(TypePointer(ptr, Uniform, uint))
  {
    metadata := AddGAMetadata(m);
    ghost var g, ds := m.globals, m.decorations;
    uint, zero, one, ptr := UintAccessorTypes(m);
    IsMetadataBufferGrow(g, m.globals, ds, ds, metadata);
  }

  /**
   * The part of the driver that works on the kernel module: storage classes,
   * the global block's decorations, then the kernel loop.
   */
  method WrapKernels(m: ShaderModule, lm: LlvmModule, ks: seq<KernelInfo>, size: nat -> nat) returns (ok: bool)
    requires m.Valid() && BlockTyped(m.globals) && KernelsFit(m.functions, ks)
    modifies m
    ensures ok <==> FirstRejected(old(m.functions), ks).None?
    ensures var fixed := FixAll(old(m.globals));
      && fixed <= m.globals
      && BlockTyped(fixed)
      && old(m.decorations) + GlobalBufferSpec(fixed, lm).1 <= m.decorations
      && var stop := match FirstRejected(old(m.functions), ks) case Some(i) => i case None => |ks|;
      && old(m.entryPoints) <= m.entryPoints
      && EntryNames(m.entryPoints[|old(m.entryPoints)|..]) == EntryNamesFor(old(m.functions), ks[..stop])
      && forall e :: e in m.entryPoints[|old(m.entryPoints)|..] ==> WrapperEntryOk(m.globals, e)
  {
    FixGlobalStorageClass(m);
    BlockTypedFixAll(old(m.globals));
    var _ := DecorateGlobalBuffer(m, lm);
    ok := WrapAll(m, ks, size);
  }

  /** The kernel loop, with what it does to the entry points. */
  method WrapAll(m: ShaderModule, ks: seq<KernelInfo>, size: nat -> nat) returns (ok: bool)
    requires m.Valid() && KernelsFit(m.functions, ks)
    modifies m
    ensures ok <==> FirstRejected(old(m.functions), ks).None?
    ensures old(m.globals) <= m.globals && old(m.decorations) <= m.decorations
    ensures var stop := if ok then |ks| else FirstRejected(old(m.functions), ks).value;
      && old(m.entryPoints) <= m.entryPoints
      && EntryNames(m.entryPoints[|old(m.entryPoints)|..]) == EntryNamesFor(old(m.functions), ks[..stop])
      && forall e :: e in m.entryPoints[|old(m.entryPoints)|..] ==> WrapperEntryOk(m.globals, e)
  {
    ghost var ws;
    ok, ws := AddWrappers(m, ks, size);
    ghost var stop := if ok then |ks| else FirstRejected(old(m.functions), ks).value;
    LoopEntryPointsAdded(m.globals, m.decorations, m.entryPoints, m.functions, old(m.functions), ks[..stop], ws, size,
                         old(m.entryPoints), Bindings(old(m.decorations)), |old(m.decorations)|);
  }

  /**
   * The whole driver. `m` is the deserialised kernel module (null when
   * deserialisation fails) and `resolved` the outcome of resolving its ids;
   * `m1` and `resolved1` the same for the module read back after the
   * built-ins are translated. The result of DecorateGlobalBuffer is not
   * consulted.
   */
  method AddGLComputeWrappers(m: ShaderModule?, resolved: bool, lm: LlvmModule, ks: seq<KernelInfo>, size: nat -> nat,
                              m1: ShaderModule?, resolved1: bool) returns (r: Outcome)
    requires m != null ==> m.Valid() && BlockTyped(m.globals) && KernelsFit(m.functions, ks)
    requires m1 != null ==> m1.Valid() && m1 != m
    modifies m, m1
    ensures m == null ==> r == Failed(DeserializeFailed)
    ensures m != null && !resolved ==> r == Failed(ResolveFailed)
    ensures m != null && resolved && FirstRejected(old(m.functions), ks).Some? ==> r == Failed(KernelFailed)
    ensures m != null && resolved && FirstRejected(old(m.functions), ks).None? ==>
      && (m1 == null ==> r == Failed(DeserializeFailed))
      && (m1 != null && !resolved1 ==> r == Failed(ResolveFailed))
      && (m1 != null && resolved1 ==> r.Lowered? && IsMetadataBuffer(m1.globals, m1.decorations, r.metadata))
    ensures m != null && resolved ==>
      && var fixed := FixAll(old(m.globals));
      && fixed <= m.globals
      && BlockTyped(fixed)
      && old(m.decorations) + GlobalBufferSpec(fixed, lm).1 <= m.decorations
      && var stop := match FirstRejected(old(m.functions), ks) case Some(i) => i case None => |ks|;
      && old(m.entryPoints) <= m.entryPoints
      && EntryNames(m.entryPoints[|old(m.entryPoints)|..]) == EntryNamesFor(old(m.functions), ks[..stop])
      && forall e :: e in m.entryPoints[|old(m.entryPoints)|..] ==> WrapperEntryOk(m.globals, e)
  {
    if m == null {
      return Failed(DeserializeFailed);
    }
    if !resolved {
      return Failed(ResolveFailed);
    }
    var ok := WrapKernels(m, lm, ks, size);
    if !ok {
      return Failed(KernelFailed);
    }
    if m1 == null {
      return Failed(DeserializeFailed);
    }
    if !resolved1 {
      return Failed(ResolveFailed);
    }
    var metadata, _, _, _, _ := PrepareAccessors(m1);
    return Lowered(metadata);
  }
}
