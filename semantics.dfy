/**
 * A small evaluator for the straight-line instructions a wrapper emits, so
 * that the meaning of the emitted index computation can be stated: result
 * ids are bound in an environment, built-in input variables read from a
 * memory, and constants come from the global section.
 */
module Semantics {
  import opened Spirv
  import opened Uint32

  /** A 32-bit scalar or a 3-component vector. */
  datatype Val = U(n: nat) | V3(c0: nat, c1: nat, c2: nat)

  function ScalarConst(g: seq<Decl>, id: nat): Option<nat>
  {
    match Lookup(g, id)
    case Some(Constant(_, _, v)) => Some(v)
    case _ => None
  }

  /** The value of a constant or composite constant of the global section. */
  function ConstVal(g: seq<Decl>, id: nat): Option<Val>
  {
    match Lookup(g, id)
    case Some(Constant(_, _, v)) => Some(U(v))
    case Some(ConstantComposite(_, _, parts)) =>
      if |parts| == 3 && ScalarConst(g, parts[0]).Some? && ScalarConst(g, parts[1]).Some?
         && ScalarConst(g, parts[2]).Some?
      then Some(V3(ScalarConst(g, parts[0]).value, ScalarConst(g, parts[1]).value, ScalarConst(g, parts[2]).value))
      else None
    case _ => None
  }

  /** An operand: a result computed earlier in the block, else a constant. */
  function Operand(g: seq<Decl>, env: map<nat, Val>, id: nat): Option<Val>
  {
    if id in env then Some(env[id]) else ConstVal(g, id)
  }

  function Component(v: Val, k: nat): Option<nat>
  {
    match v
    case V3(a, b, c) => if k == 0 then Some(a) else if k == 1 then Some(b) else if k == 2 then Some(c) else None
    case U(_) => None
  }

  /**
   * One instruction. Loads read the built-in variables held in `mem`;
   * instructions the index computation does not involve leave the
   * environment as it is.
   */
  function Step(g: seq<Decl>, mem: map<nat, Val>, env: map<nat, Val>, inst: Inst): map<nat, Val>
  {
    match inst
    case Load(id, _, p) => if p in mem then env[id := mem[p]] else env
    case CompositeExtract(id, _, c, k) =>
      (match Operand(g, env, c)
       case Some(v) => (match Component(v, k) case Some(n) => env[id := U(n)] case None => env)
       case None => env)
    case IMul(id, _, a, b) =>
      (match (Operand(g, env, a), Operand(g, env, b))
       case (Some(U(x)), Some(U(y))) => env[id := U(Mul32(x, y))]
       case _ => env)
    case IAdd(id, _, a, b) =>
      (match (Operand(g, env, a), Operand(g, env, b))
       case (Some(U(x)), Some(U(y))) => env[id := U(Add32(x, y))]
       case _ => env)
    case _ => env
  }

  /** Run a block from its first instruction to its last. */
  function Exec(g: seq<Decl>, mem: map<nat, Val>, env: map<nat, Val>, code: seq<Inst>): map<nat, Val>
    decreases |code|
  {
    if code == [] then env else Exec(g, mem, Step(g, mem, env, code[0]), code[1..])
  }

  /** Running from instruction k is running instruction k, then the rest. */
  lemma ExecFrom(g: seq<Decl>, mem: map<nat, Val>, env: map<nat, Val>, code: seq<Inst>, k: nat)
    requires k < |code|
    ensures Exec(g, mem, env, code[k..]) == Exec(g, mem, Step(g, mem, env, code[k]), code[k + 1..])
  {
    assert code[k..][0] == code[k] && code[k..][1..] == code[k + 1..];
  }

  lemma {:induction false} ExecConcat(g: seq<Decl>, mem: map<nat, Val>, env: map<nat, Val>, a: seq<Inst>, b: seq<Inst>)
    ensures Exec(g, mem, env, a + b) == Exec(g, mem, Exec(g, mem, env, a), b)
    decreases |a|
  {
    if a == [] {
      assert a + b == b;
    } else {
      assert (a + b)[0] == a[0];
      assert (a + b)[1..] == a[1..] + b;
      ExecConcat(g, mem, Step(g, mem, env, a[0]), a[1..], b);
    }
  }
}
