/** Lisp values, environments and the store they live in.
    Environments follow the contracts of src/c/runtime.h: a frame or an environment holds
    variable and function bindings, a set of constants and a parent. */
module Lisp {

  datatype Option<T> = None | Some(value: T)

  /** Symbols. The ones the evaluator compares against have a constructor of their own. */
  datatype Name =
    | SQuote | SIf | SProgn | SSetq | SDefun | SLambda | SDefmacro
    | SQuasiquote | SUnquote | SUnquoteSplicing
    | SBlock | SReturnFrom | SUnwindProtect | SFunction | SDeclaim | SDeclare
    | SFlet | SLabels | SDefvar | SDefconstant | SDefdynamic | SDefglobal | SDynamic
    | SCatch | SThrow | STagbody | SGo
    | SRest | STopLevel
    | SUser(id: string)

  /** Native functions: the three of eval.c, `cons`, and any other library function,
      whose behaviour is a table in the store. */
  datatype Primitive = Funcall | Apply | Macroexpand1 | MakeCons | Library(id: nat)

  datatype Error = UnboundVariable | UndefinedFunction | NotAFunction | Arity | ImmutableBinding | Control

  /** A tagged value. Heap objects carry the address they were allocated at, so that
      structural equality of model values is `eq`. The three exit objects are values too:
      that is how non-local exits travel. */
  datatype Val =
    | Nil
    | Sym(name: Name)
    | Atom(id: int)
    | Instance(id: int)
    | Cons(addr: nat, car: Val, cdr: Val)
    | Closure(addr: nat, params: Val, body: Val, scope: nat)
    | Macro(addr: nat, params: Val, body: Val, scope: nat)
    | Native(prim: Primitive)
    | Condition(error: Error, culprit: Val)
    | BlockExit(dest: Val, value: Val)
    | CatchExit(tag: Val, value: Val)
    | GoExit(tag: Val)

  predicate IsExit(v: Val) {
    v.BlockExit? || v.CatchExit? || v.GoExit?
  }

  /** The values whose tag is TAG_INSTANCE. */
  predicate IsInstance(v: Val) {
    !(v.Nil? || v.Sym? || v.Atom? || v.Cons?)
  }

  /** Word 1 of an exit object: its destination. */
  function Target(x: Val): Val
    requires IsExit(x)
  {
    match x
    case BlockExit(n, _) => n
    case CatchExit(t, _) => t
    case GoExit(t) => t
  }

  /** Word 2 of an exit object: the value it carries (nil for `go`). */
  function Payload(x: Val): Val
    requires IsExit(x)
  {
    match x
    case BlockExit(_, v) => v
    case CatchExit(_, v) => v
    case GoExit(_) => Nil
  }

  function Car(v: Val): Val { if v.Cons? then v.car else Nil }

  function Cdr(v: Val): Val { if v.Cons? then v.cdr else Nil }

  /** The number of conses in a value. */
  function Size(v: Val): nat { if v.Cons? then 1 + Size(v.car) + Size(v.cdr) else 0 }

  /** A signalled condition ends in `(return-from %top-level condition)`. */
  function Raise(error: Error, culprit: Val): (x: Val)
    ensures IsExit(x)
  {
    BlockExit(Sym(STopLevel), Condition(error, culprit))
  }

  /** The elements of a list, up to its first non-cons tail. */
  function Elems(list: Val): seq<Val> {
    if list.Cons? then [list.car] + Elems(list.cdr) else []
  }

  datatype Env = Env(frame: bool, vars: map<Val, Val>, funs: map<Val, Val>, consts: set<Val>, parent: Option<nat>)

  /** Everything the evaluator mutates except the live-block list.
      `library` is the graph of the library functions; it never changes. */
  datatype Store = Store(envs: seq<Env>, dyn: map<Val, Val>, next: nat, library: map<(nat, Val), Val>)

  datatype Made = Made(val: Val, store: Store)

  const GLOBAL: nat := 0

  /** The nearest environment from `env` outwards with a variable binding for `sym`. */
  function FindVariable(envs: seq<Env>, sym: Val, env: nat): Option<nat>
    decreases env
  {
    if env >= |envs| then None
    else if sym in envs[env].vars then Some(env)
    else if envs[env].parent.Some? && envs[env].parent.value < env then FindVariable(envs, sym, envs[env].parent.value)
    else None
  }

  /** The nearest environment from `env` outwards with a function binding for `sym`. */
  function FindFunction(envs: seq<Env>, sym: Val, env: nat): Option<nat>
    decreases env
  {
    if env >= |envs| then None
    else if sym in envs[env].funs then Some(env)
    else if envs[env].parent.Some? && envs[env].parent.value < env then FindFunction(envs, sym, envs[env].parent.value)
    else None
  }

  lemma FoundVariable(envs: seq<Env>, sym: Val, env: nat)
    ensures FindVariable(envs, sym, env).Some? ==>
              var at := FindVariable(envs, sym, env).value; at < |envs| && sym in envs[at].vars
    decreases env
  {
  }

  lemma FoundFunction(envs: seq<Env>, sym: Val, env: nat)
    ensures FindFunction(envs, sym, env).Some? ==>
              var at := FindFunction(envs, sym, env).value; at < |envs| && sym in envs[at].funs
    decreases env
  {
  }

  function VariableIn(envs: seq<Env>, sym: Val, env: nat): Option<Val> {
    FoundVariable(envs, sym, env);
    var at := FindVariable(envs, sym, env);
    if at.Some? then Some(envs[at.value].vars[sym]) else None
  }

  /** os_get_variable_checked */
  function Variable(st: Store, sym: Val, env: nat): Val {
    var v := VariableIn(st.envs, sym, env);
    if v.Some? then v.value else Raise(UnboundVariable, sym)
  }

  /** os_get_function: nil when undefined */
  function FunctionOf(st: Store, sym: Val, env: nat): Val {
    FoundFunction(st.envs, sym, env);
    var at := FindFunction(st.envs, sym, env);
    if at.Some? then st.envs[at.value].funs[sym] else Nil
  }

  predicate IsConstant(envs: seq<Env>, sym: Val, env: nat)
    decreases env
  {
    env < |envs| &&
    (sym in envs[env].consts
     || (envs[env].parent.Some? && envs[env].parent.value < env && IsConstant(envs, sym, envs[env].parent.value)))
  }

  /** os_definition_env: the nearest environment that is not a throw-away frame. */
  function Owner(envs: seq<Env>, env: nat): nat
    decreases env
  {
    if env >= |envs| then GLOBAL
    else if !envs[env].frame then env
    else if envs[env].parent.Some? && envs[env].parent.value < env then Owner(envs, envs[env].parent.value)
    else GLOBAL
  }

  function SetVariable(st: Store, sym: Val, v: Val, env: nat): Store {
    if env < |st.envs| then
      st.(envs := st.envs[env := st.envs[env].(vars := st.envs[env].vars[sym := v])])
    else st
  }

  function SetFunction(st: Store, sym: Val, f: Val, env: nat): Store {
    if env < |st.envs| then
      st.(envs := st.envs[env := st.envs[env].(funs := st.envs[env].funs[sym := f])])
    else st
  }

  function MarkConstant(st: Store, sym: Val, env: nat): Store {
    if env < |st.envs| then
      st.(envs := st.envs[env := st.envs[env].(consts := st.envs[env].consts + {sym})])
    else st
  }

  /** os_setq_variable: overwrite the visible binding, or make one in `env`. */
  function SetqVariable(st: Store, sym: Val, v: Val, env: nat): Store {
    var at := FindVariable(st.envs, sym, env);
    SetVariable(st, sym, v, if at.Some? then at.value else env)
  }

  function SetDynamic(st: Store, sym: Val, v: Val): Store {
    st.(dyn := st.dyn[sym := v])
  }

  function Dynamic(st: Store, sym: Val): Val {
    if sym in st.dyn then st.dyn[sym] else Nil
  }

  /** os_make_frame: the new frame is environment number |st.envs|. */
  function NewFrame(st: Store, parent: nat): Store {
    st.(envs := st.envs + [Env(true, map[], map[], {}, Some(parent))])
  }

  function MkCons(st: Store, a: Val, d: Val): Made {
    Made(Cons(st.next, a, d), st.(next := st.next + 1))
  }

  function MkClosure(st: Store, params: Val, body: Val, scope: nat): Made {
    Made(Closure(st.next, params, body, scope), st.(next := st.next + 1))
  }

  function MkMacro(st: Store, params: Val, body: Val, scope: nat): Made {
    Made(Macro(st.next, params, body, scope), st.(next := st.next + 1))
  }

  /** The two-element list (sym x). */
  function MkPair(st: Store, sym: Name, x: Val): Made {
    var tail := MkCons(st, x, Nil);
    MkCons(tail.store, Sym(sym), tail.val)
  }

  /** qq_append: a copy of `list` in front of `tail`, allocated from the back. */
  function Append(st: Store, list: Val, tail: Val): Made {
    if list == Nil then Made(tail, st)
    else
      var rest := if list.Cons? then Append(st, list.cdr, tail) else Made(tail, st);
      MkCons(rest.store, Car(list), rest.val)
  }

  datatype Bound = Bound(ok: bool, store: Store)

  /** bind_params: false on an arity mismatch; the bindings made before it stay. */
  function BindParams(st: Store, params: Val, args: Val, env: nat): Bound
    decreases params
  {
    if !params.Cons? then Bound(args == Nil, st)
    else if params.car == Sym(SRest) then Bound(true, SetVariable(st, Car(params.cdr), args, env))
    else if args == Nil then Bound(false, st)
    else BindParams(SetVariable(st, params.car, Car(args), env), params.cdr, Cdr(args), env)
  }

  /** The binding loop of flet and labels: closures over `scope`, registered in `target`. */
  function BindFunctions(st: Store, bindings: Val, scope: nat, target: nat): Store
    decreases bindings
  {
    if !bindings.Cons? then st
    else
      var b := bindings.car;
      var f := MkClosure(st, Car(Cdr(b)), Cdr(Cdr(b)), scope);
      BindFunctions(SetFunction(f.store, Car(b), f.val, target), bindings.cdr, scope, target)
  }

  predicate IsTag(v: Val) { v.Sym? }

  /** The scan of eval_tagbody for a tag: what follows its first occurrence. */
  function FindTag(body: Val, tag: Val): Option<Val> {
    if !body.Cons? then None
    else if IsTag(body.car) && body.car == tag then Some(body.cdr)
    else FindTag(body.cdr, tag)
  }

  function LibraryCall(st: Store, id: nat, args: Val): Val {
    if (id, args) in st.library then st.library[(id, args)] else Nil
  }
}
