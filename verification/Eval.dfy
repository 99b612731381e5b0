/** The evaluator of src/c/eval.c as a function. Every construct gets the results of its
    subforms as ordinary values, tests them for an exit object and hands the exit upwards;
    `fuel` bounds the nesting of evaluations. */
module Eval {
  import opened Lisp

  /** What an evaluation changes: the store and the process's list of live blocks. */
  datatype State = State(store: Store, live: seq<Val>)

  datatype Outcome = OutOfFuel | Done(val: Val, state: State)

  /** The test after a subform: no value to go on with. */
  predicate Stops(o: Outcome) {
    o.OutOfFuel? || IsExit(o.val)
  }

  predicate KeepsLive(o: Outcome, s: State) {
    o.Done? ==> o.state.live == s.live
  }

  function With(s: State, m: Made): Outcome {
    Done(m.val, s.(store := m.store))
  }

  function OsEval(fuel: nat, exp: Val, env: nat, s: State): (o: Outcome)
    ensures KeepsLive(o, s)
    decreases fuel, 0, Nil
  {
    if fuel == 0 then OutOfFuel
    else
      match exp
      case Nil => Done(Nil, s)
      case Sym(_) => Done(Variable(s.store, exp, env), s)
      case Cons(_, op, args) =>
        if op.Sym? then EvalNamed(fuel - 1, op.name, args, env, s) else EvalForm(fuel - 1, op, args, env, s)
      case _ => Done(exp, s)
  }

  /** The dispatch of os_eval on a symbol in operator position. */
  function EvalNamed(fuel: nat, op: Name, args: Val, env: nat, s: State): (o: Outcome)
    ensures KeepsLive(o, s)
    decreases fuel, 9, Nil
  {
    match op
    case SQuote => Done(Car(args), s)
    case SIf => EvalIf(fuel, args, env, s)
    case SProgn => EvalProgn(fuel, args, env, s)
    case SSetq => EvalSetq(fuel, args, env, s)
    case SDefun => EvalDefun(args, env, s)
    case SLambda => With(s, MkClosure(s.store, Car(args), Cdr(args), env))
    case SDefmacro => EvalDefmacro(args, env, s)
    case SQuasiquote => QqExpand(fuel, Car(args), env, 0, s)
    case SBlock => EvalBlock(fuel, args, env, s)
    case SReturnFrom => EvalReturnFrom(fuel, args, env, s)
    case SUnwindProtect => EvalUnwindProtect(fuel, args, env, s)
    case SFunction => EvalFunction(fuel, args, env, s)
    case SDeclaim => Done(Nil, s)
    case SDeclare => Done(Nil, s)
    case SFlet => EvalLocalFunctions(fuel, args, env, false, s)
    case SLabels => EvalLocalFunctions(fuel, args, env, true, s)
    case SDefvar => EvalDefvar(fuel, args, env, s)
    case SDefconstant => EvalDefconstant(fuel, args, env, s)
    case SDefdynamic => EvalDefdynamic(fuel, args, env, s)
    case SDefglobal => EvalDefglobal(fuel, args, env, s)
    case SDynamic => Done(Dynamic(s.store, Car(args)), s)
    case SCatch => EvalCatch(fuel, args, env, s)
    case SThrow => EvalThrow(fuel, args, env, s)
    case STagbody => EvalTagbody(fuel, args, args, env, s)
    case SGo => Done(GoExit(Car(args)), s)
    case _ => EvalCall(fuel, op, args, env, s)
  }

  /** A symbol that names no special form: a macro call or a function call. */
  function EvalCall(fuel: nat, op: Name, args: Val, env: nat, s: State): (o: Outcome)
    ensures KeepsLive(o, s)
    decreases fuel, 8, Nil
  {
    var f := FunctionOf(s.store, Sym(op), env);
    if f.Macro? then
      var expanded := ApplyMacro(fuel, f, args, s);
      if expanded.OutOfFuel? then OutOfFuel else OsEval(fuel, expanded.val, env, expanded.state)
    else EvalForm(fuel, Sym(op), args, env, s)
  }

  function EvalArgs(fuel: nat, args: Val, env: nat, s: State): (o: Outcome)
    ensures KeepsLive(o, s)
    decreases fuel, 1, args
  {
    if !args.Cons? then Done(Nil, s)
    else
      var head := OsEval(fuel, args.car, env, s);
      if Stops(head) then head
      else
        var tail := EvalArgs(fuel, args.cdr, env, head.state);
        if Stops(tail) then tail
        else With(tail.state, MkCons(tail.state.store, head.val, tail.val))
  }

  function EvalProgn(fuel: nat, body: Val, env: nat, s: State): (o: Outcome)
    ensures KeepsLive(o, s)
    decreases fuel, 1, body
  {
    if !body.Cons? then Done(Nil, s)
    else
      var r := OsEval(fuel, body.car, env, s);
      if Stops(r) || !body.cdr.Cons? then r
      else EvalProgn(fuel, body.cdr, env, r.state)
  }

  /** apply_function */
  function ApplyFunction(fuel: nat, f: Val, args: Val, env: nat, s: State): (o: Outcome)
    ensures KeepsLive(o, s)
    decreases fuel, 3, Size(args)
  {
    match f
    case Native(Funcall) =>
      if args.Cons? then ApplyFunction(fuel, args.car, args.cdr, env, s)
      else Done(Raise(NotAFunction, Nil), s)
    case Native(Apply) =>
      if args.Cons? then
        assert Size(Car(args.cdr)) <= Size(args.cdr);
        ApplyFunction(fuel, args.car, Car(args.cdr), env, s)
      else Done(Raise(NotAFunction, Nil), s)
    case Native(Macroexpand1) => Macroexpand(fuel, Car(args), env, s)
    case Native(MakeCons) => With(s, MkCons(s.store, Car(args), Car(Cdr(args))))
    case Native(Library(id)) => Done(LibraryCall(s.store, id, args), s)
    case Closure(_, params, body, scope) =>
      var b := BindParams(NewFrame(s.store, scope), params, args, |s.store.envs|);
      if b.ok then EvalProgn(fuel, body, |s.store.envs|, s.(store := b.store))
      else Done(Raise(Arity, Nil), s.(store := b.store))
    case _ => Done(Raise(NotAFunction, f), s)
  }

  /** apply_macro: unlike a call, a wrong number of arguments is not signalled. */
  function ApplyMacro(fuel: nat, m: Val, args: Val, s: State): (o: Outcome)
    requires m.Macro?
    ensures KeepsLive(o, s)
    decreases fuel, 2, Nil
  {
    var b := BindParams(NewFrame(s.store, m.scope), m.params, args, |s.store.envs|);
    EvalProgn(fuel, m.body, |s.store.envs|, s.(store := b.store))
  }

  /** primitive_macroexpand_1 */
  function Macroexpand(fuel: nat, form: Val, env: nat, s: State): (o: Outcome)
    ensures KeepsLive(o, s)
    decreases fuel, 2, Cons(0, Nil, Nil)
  {
    if form.Cons? && form.car.Sym? && FunctionOf(s.store, form.car, env).Macro? then
      ApplyMacro(fuel, FunctionOf(s.store, form.car, env), form.cdr, s)
    else Done(form, s)
  }

  /** eval_form. The value of a compound operator is not tested for an exit. */
  function EvalForm(fuel: nat, op: Val, args: Val, env: nat, s: State): (o: Outcome)
    ensures KeepsLive(o, s)
    decreases fuel, 7, Nil
  {
    var f := if op.Sym? then Done(FunctionOf(s.store, op, env), s) else OsEval(fuel, op, env, s);
    if f.OutOfFuel? then OutOfFuel
    else if f.val == Nil then
      Done(if op.Sym? then Raise(UndefinedFunction, op) else Raise(NotAFunction, Nil), f.state)
    else
      var argv := EvalArgs(fuel, args, env, f.state);
      if Stops(argv) then argv else ApplyFunction(fuel, f.val, argv.val, env, argv.state)
  }

  function EvalIf(fuel: nat, args: Val, env: nat, s: State): (o: Outcome)
    ensures KeepsLive(o, s)
    decreases fuel, 6, Nil
  {
    var test := OsEval(fuel, Car(args), env, s);
    if Stops(test) then test
    else if test.val != Nil then OsEval(fuel, Car(Cdr(args)), env, test.state)
    else if Cdr(Cdr(args)) != Nil then OsEval(fuel, Car(Cdr(Cdr(args))), env, test.state)
    else Done(Nil, test.state)
  }

  function EvalSetq(fuel: nat, args: Val, env: nat, s: State): (o: Outcome)
    ensures KeepsLive(o, s)
    decreases fuel, 6, Nil
  {
    if IsConstant(s.store.envs, Car(args), env) then Done(Raise(ImmutableBinding, Nil), s)
    else
      var r := OsEval(fuel, Car(Cdr(args)), env, s);
      if Stops(r) then r
      else Done(r.val, r.state.(store := SetqVariable(r.state.store, Car(args), r.val, env)))
  }

  function EvalDefun(args: Val, env: nat, s: State): (o: Outcome)
    ensures KeepsLive(o, s)
  {
    var f := MkClosure(s.store, Car(Cdr(args)), Cdr(Cdr(args)), env);
    Done(Car(args), s.(store := SetFunction(f.store, Car(args), f.val, Owner(s.store.envs, env))))
  }

  function EvalDefmacro(args: Val, env: nat, s: State): (o: Outcome)
    ensures KeepsLive(o, s)
  {
    var m := MkMacro(s.store, Car(Cdr(args)), Cdr(Cdr(args)), env);
    Done(Car(args), s.(store := SetFunction(m.store, Car(args), m.val, Owner(s.store.envs, env))))
  }

  function EvalDefvar(fuel: nat, args: Val, env: nat, s: State): (o: Outcome)
    ensures KeepsLive(o, s)
    decreases fuel, 6, Nil
  {
    var owner := Owner(s.store.envs, env);
    if owner < |s.store.envs| && Car(args) in s.store.envs[owner].vars then Done(Car(args), s)
    else
      var r := if Cdr(args) != Nil then OsEval(fuel, Car(Cdr(args)), env, s) else Done(Nil, s);
      if Stops(r) then r
      else Done(Car(args), r.state.(store := SetVariable(r.state.store, Car(args), r.val, owner)))
  }

  function EvalDefconstant(fuel: nat, args: Val, env: nat, s: State): (o: Outcome)
    ensures KeepsLive(o, s)
    decreases fuel, 6, Nil
  {
    var owner := Owner(s.store.envs, env);
    var r := OsEval(fuel, Car(Cdr(args)), env, s);
    if Stops(r) then r
    else
      var bound := SetVariable(r.state.store, Car(args), r.val, owner);
      Done(Car(args), r.state.(store := MarkConstant(bound, Car(args), owner)))
  }

  function EvalDefdynamic(fuel: nat, args: Val, env: nat, s: State): (o: Outcome)
    ensures KeepsLive(o, s)
    decreases fuel, 6, Nil
  {
    var r := OsEval(fuel, Car(Cdr(args)), env, s);
    if Stops(r) then r else Done(Car(args), r.state.(store := SetDynamic(r.state.store, Car(args), r.val)))
  }

  function EvalDefglobal(fuel: nat, args: Val, env: nat, s: State): (o: Outcome)
    ensures KeepsLive(o, s)
    decreases fuel, 6, Nil
  {
    var owner := Owner(s.store.envs, env);
    var r := OsEval(fuel, Car(Cdr(args)), env, s);
    if Stops(r) then r else Done(Car(args), r.state.(store := SetVariable(r.state.store, Car(args), r.val, owner)))
  }

  function EvalFunction(fuel: nat, args: Val, env: nat, s: State): (o: Outcome)
    ensures KeepsLive(o, s)
    decreases fuel, 6, Nil
  {
    if Car(args).Sym? then
      var f := FunctionOf(s.store, Car(args), env);
      Done(if f == Nil then Raise(UndefinedFunction, Car(args)) else f, s)
    else OsEval(fuel, Car(args), env, s)
  }

  /** eval_flet and eval_labels differ in the scope of the closures they make. */
  function EvalLocalFunctions(fuel: nat, args: Val, env: nat, recursive: bool, s: State): (o: Outcome)
    ensures KeepsLive(o, s)
    decreases fuel, 6, Nil
  {
    var inner := |s.store.envs|;
    var bound := BindFunctions(NewFrame(s.store, env), Car(args), if recursive then inner else env, inner);
    EvalProgn(fuel, Cdr(args), inner, s.(store := bound))
  }

  /** qq_expand. What an unquote yields is not tested for an exit. */
  function QqExpand(fuel: nat, form: Val, env: nat, depth: nat, s: State): (o: Outcome)
    ensures KeepsLive(o, s)
    decreases fuel, 1, form
  {
    if !form.Cons? then Done(form, s)
    else if form.car == Sym(SQuasiquote) then QqWrap(fuel, SQuasiquote, form, env, depth + 1, s)
    else if form.car == Sym(SUnquote) || form.car == Sym(SUnquoteSplicing) then
      if depth == 0 then OsEval(fuel, Car(form.cdr), env, s)
      else QqWrap(fuel, form.car.name, form, env, depth - 1, s)
    else
      var spliced := form.car.Cons? && form.car.car == Sym(SUnquoteSplicing);
      var head :=
        if !spliced then QqExpand(fuel, form.car, env, depth, s)
        else if depth == 0 then OsEval(fuel, Car(form.car.cdr), env, s)
        else QqWrap(fuel, SUnquoteSplicing, form.car, env, depth - 1, s);
      if head.OutOfFuel? then OutOfFuel
      else
        var tail := QqExpand(fuel, form.cdr, env, depth, head.state);
        if tail.OutOfFuel? then OutOfFuel
        else if spliced && depth == 0 then With(tail.state, Append(tail.state.store, head.val, tail.val))
        else With(tail.state, MkCons(tail.state.store, head.val, tail.val))
  }

  /** qq_wrap around the expansion of the operand of (op operand). */
  function QqWrap(fuel: nat, op: Name, form: Val, env: nat, depth: nat, s: State): (o: Outcome)
    requires form.Cons?
    ensures KeepsLive(o, s)
    decreases fuel, 1, form, 0
  {
    if !form.cdr.Cons? then With(s, MkPair(s.store, op, Nil))
    else
      var inner := QqExpand(fuel, form.cdr.car, env, depth, s);
      if inner.OutOfFuel? then OutOfFuel
      else With(inner.state, MkPair(inner.state.store, op, inner.val))
  }

  /** eval_block. The destination word of the exit is compared, not its kind. */
  function EvalBlock(fuel: nat, args: Val, env: nat, s: State): (o: Outcome)
    ensures KeepsLive(o, s)
    decreases fuel, 6, Nil
  {
    var r := EvalProgn(fuel, Cdr(args), env, s.(live := [Car(args)] + s.live));
    if r.OutOfFuel? then OutOfFuel
    else
      var restored := r.state.(live := s.live);
      if IsExit(r.val) && Target(r.val) == Car(args) then Done(Payload(r.val), restored)
      else Done(r.val, restored)
  }

  function EvalReturnFrom(fuel: nat, args: Val, env: nat, s: State): (o: Outcome)
    ensures KeepsLive(o, s)
    decreases fuel, 6, Nil
  {
    var r := if Cdr(args) != Nil then OsEval(fuel, Car(Cdr(args)), env, s) else Done(Nil, s);
    if Stops(r) then r
    else if Car(args) !in r.state.live then Done(Raise(Control, Nil), r.state)
    else Done(BlockExit(Car(args), r.val), r.state)
  }

  function EvalUnwindProtect(fuel: nat, args: Val, env: nat, s: State): (o: Outcome)
    ensures KeepsLive(o, s)
    decreases fuel, 6, Nil
  {
    var r := OsEval(fuel, Car(args), env, s);
    if r.OutOfFuel? then OutOfFuel
    else
      var cleanup := EvalProgn(fuel, Cdr(args), env, r.state);
      if cleanup.OutOfFuel? then OutOfFuel
      else if IsExit(cleanup.val) then
        if IsExit(r.val) then Done(Raise(Control, Nil), cleanup.state) else cleanup
      else Done(r.val, cleanup.state)
  }

  function EvalCatch(fuel: nat, args: Val, env: nat, s: State): (o: Outcome)
    ensures KeepsLive(o, s)
    decreases fuel, 6, Nil
  {
    var tag := OsEval(fuel, Car(args), env, s);
    if Stops(tag) then tag
    else
      var r := EvalProgn(fuel, Cdr(args), env, tag.state);
      if r.Done? && r.val.CatchExit? && r.val.tag == tag.val then Done(r.val.value, r.state) else r
  }

  function EvalThrow(fuel: nat, args: Val, env: nat, s: State): (o: Outcome)
    ensures KeepsLive(o, s)
    decreases fuel, 6, Nil
  {
    var tag := OsEval(fuel, Car(args), env, s);
    if Stops(tag) then tag
    else
      var r := OsEval(fuel, Car(Cdr(args)), env, tag.state);
      if Stops(r) then r else Done(CatchExit(tag.val, r.val), r.state)
  }

  /** eval_tagbody from position `pos` of `body`. Any TAG_INSTANCE value ends it. */
  function EvalTagbody(fuel: nat, body: Val, pos: Val, env: nat, s: State): (o: Outcome)
    ensures KeepsLive(o, s)
    decreases fuel, 1, pos
  {
    if !pos.Cons? then Done(Nil, s)
    else if IsTag(pos.car) then EvalTagbody(fuel, body, pos.cdr, env, s)
    else
      var r := OsEval(fuel, pos.car, env, s);
      if r.OutOfFuel? then OutOfFuel
      else if IsInstance(r.val) then
        var dest := if r.val.GoExit? then FindTag(body, r.val.tag) else None;
        if dest.None? then r
        else if fuel == 0 then OutOfFuel
        else EvalTagbody(fuel - 1, body, dest.value, env, r.state)
      else EvalTagbody(fuel, body, pos.cdr, env, r.state)
  }

  datatype TopLevelOutcome = TopLevelOutOfFuel | TopLevelDone(val: Val, aborted: bool, state: State)

  /** os_eval_top_level_ex: the form as the body of a block named %TOP-LEVEL. */
  function EvalTopLevel(fuel: nat, form: Val, env: nat, s: State): TopLevelOutcome {
    var r := OsEval(fuel, form, env, s.(live := [Sym(STopLevel)] + s.live));
    if r.OutOfFuel? then TopLevelOutOfFuel
    else
      var restored := r.state.(live := s.live);
      if IsExit(r.val) && Target(r.val) == Sym(STopLevel) then
        TopLevelDone(Payload(r.val), r.val.BlockExit?, restored)
      else TopLevelDone(r.val, false, restored)
  }
}
