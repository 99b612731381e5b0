/** A machine with an explicit continuation stack for the same language. Forms never see
    an exit: a `return-from`, `throw`, `go` or signalled condition jumps in one step to the
    frame that handles it. The live blocks are the block frames on the stack.

    The machine has two dialects. `Islisp` is the intended reading: an exit is caught only
    by a handler of its own kind. `Implemented` follows eval.c in the four places where it
    is narrower: an operator position and the parts of a quasiquote take an exit for a
    value, a block catches any exit whose destination word is its name, and a tagbody ends
    with the first instance one of its forms yields. */
module Machine {
  import opened Lisp

  datatype Dialect = Islisp | Implemented

  /** What eval.c does. */
  const D: Dialect := Implemented

  /** The cons/append program that a quasiquote template stands for. */
  datatype Template =
    | Constant(val: Val)
    | Unquoted(exp: Val)
    | Pairing(head: Template, tail: Template)
    | Splicing(head: Template, tail: Template)

  datatype Definition = Defvar | Defconstant | Defdynamic | Defglobal

  datatype Frame =
    | KOperator(args: Val, env: nat)
    | KArg(f: Val, done: seq<Val>, rest: Val, env: nat)
    | KExpansion(env: nat)
    | KProgn(rest: Val, env: nat)
    | KIf(then_: Val, rest: Val, env: nat)
    | KSetq(sym: Val, env: nat)
    | KDefine(kind: Definition, sym: Val, owner: nat)
    | KBlock(name: Val)
    | KReturnFrom(name: Val)
    | KProtect(cleanup: Val, env: nat)
    | KCleanup(result: Val)
    | KCatchTag(body: Val, env: nat)
    | KCatch(tag: Val)
    | KThrowTag(form: Val, env: nat)
    | KThrow(tag: Val)
    | KTagbody(forms: seq<Val>, pc: nat, env: nat)
    | KHead(t: Template, tail: Template, env: nat)
    | KTail(t: Template, head: Val)

  datatype Stack = Bottom | Push(top: Frame, rest: Stack)

  datatype Config = Ev(exp: Val, env: nat, k: Stack, st: Store) | Ret(val: Val, k: Stack, st: Store)

  /** What one step does before the dialects differ: carry on, hand a value (or an exit) to
      the stack, or finish one form of a tagbody. */
  datatype Action =
    | Go(next: Config)
    | Give(val: Val, k: Stack, st: Store)
    | FormDone(val: Val, frame: Frame, k: Stack, st: Store)

  function LiveBlocks(k: Stack): seq<Val> {
    match k
    case Bottom => []
    case Push(KBlock(name), rest) => [name] + LiveBlocks(rest)
    case Push(_, rest) => LiveBlocks(rest)
  }

  // ---------------------------------------------------------------- quasiquote templates

  /** (op operand) rebuilt around its operand. */
  function Rebuilt(op: Name, inner: Template): Template {
    Pairing(Constant(Sym(op)), Pairing(inner, Constant(Nil)))
  }

  /** The program of a template at nesting level `depth`: only unquotes of the outermost
      level are evaluated, everything deeper is rebuilt. */
  function Compile(form: Val, depth: nat): Template
    decreases form, 1
  {
    if !form.Cons? then Constant(form)
    else if form.car == Sym(SQuasiquote) then Rebuilt(SQuasiquote, Operand(form, depth + 1))
    else if form.car == Sym(SUnquote) || form.car == Sym(SUnquoteSplicing) then
      if depth == 0 then Unquoted(Car(form.cdr)) else Rebuilt(form.car.name, Operand(form, depth - 1))
    else if form.car.Cons? && form.car.car == Sym(SUnquoteSplicing) then
      if depth == 0 then Splicing(Unquoted(Car(form.car.cdr)), Compile(form.cdr, depth))
      else Pairing(Rebuilt(SUnquoteSplicing, Operand(form.car, depth - 1)), Compile(form.cdr, depth))
    else Pairing(Compile(form.car, depth), Compile(form.cdr, depth))
  }

  function Operand(form: Val, depth: nat): Template
    requires form.Cons?
    decreases form, 0
  {
    if form.cdr.Cons? then Compile(form.cdr.car, depth) else Constant(Nil)
  }

  function StartTemplate(t: Template, env: nat, k: Stack, st: Store): Action {
    match t
    case Constant(v) => Give(v, k, st)
    case Unquoted(e) => Go(Ev(e, env, k, st))
    case Pairing(h, tail) => StartTemplate(h, env, Push(KHead(t, tail, env), k), st)
    case Splicing(h, tail) => StartTemplate(h, env, Push(KHead(t, tail, env), k), st)
  }

  // ---------------------------------------------------------------- sequences and tagbodies

  function StartProgn(body: Val, env: nat, k: Stack, st: Store): Config {
    if !body.Cons? then Ret(Nil, k, st)
    else if body.cdr.Cons? then Ev(body.car, env, Push(KProgn(body.cdr, env), k), st)
    else Ev(body.car, env, k, st)
  }

  /** The first form at or after `pc`, skipping labels. */
  function NextForm(body: seq<Val>, pc: nat): nat
    decreases |body| - pc
  {
    if pc < |body| && IsTag(body[pc]) then NextForm(body, pc + 1) else pc
  }

  /** The position of the first occurrence of a label. */
  function Label(body: seq<Val>, tag: Val): Option<nat> {
    if body == [] then None
    else if IsTag(body[0]) && body[0] == tag then Some(0)
    else match Label(body[1..], tag) case None => None case Some(i) => Some(i + 1)
  }

  function RunTagbody(body: seq<Val>, pc: nat, env: nat, k: Stack, st: Store): Config {
    var at := NextForm(body, pc);
    if at < |body| then Ev(body[at], env, Push(KTagbody(body, at + 1, env), k), st) else Ret(Nil, k, st)
  }

  // ---------------------------------------------------------------- jumps

  /** Frames that in eval.c go on with whatever value they get, exit objects included. */
  predicate Unguarded(f: Frame) {
    f.KOperator? || f.KHead? || f.KTail?
  }

  predicate BlockCatches(d: Dialect, name: Val, x: Val)
    requires IsExit(x)
  {
    Target(x) == name && (d.Implemented? || x.BlockExit?)
  }

  /** The configuration at the frame that handles exit `x`; the whole stack is dropped
      when there is none. Cleanup forms on the way run first. */
  function Jump(d: Dialect, x: Val, k: Stack, st: Store): Config
    requires IsExit(x)
    decreases k, 0
  {
    match k
    case Bottom => Ret(x, Bottom, st)
    case Push(f, rest) =>
      match f
      case KBlock(name) =>
        if BlockCatches(d, name, x) then Deliver(d, Payload(x), rest, st) else Jump(d, x, rest, st)
      case KCatch(tag) =>
        if x.CatchExit? && x.tag == tag then Deliver(d, x.value, rest, st) else Jump(d, x, rest, st)
      case KTagbody(body, _, env) =>
        if x.GoExit? && Label(body, x.tag).Some? then RunTagbody(body, Label(body, x.tag).value + 1, env, rest, st)
        else Jump(d, x, rest, st)
      case KProtect(cleanup, env) => StartProgn(cleanup, env, Push(KCleanup(x), rest), st)
      case KCleanup(result) => Jump(d, if IsExit(result) then Raise(Control, Nil) else x, rest, st)
      case KExpansion(_) => Ret(x, k, st)
      case _ => if d.Implemented? && Unguarded(f) then Ret(x, k, st) else Jump(d, x, rest, st)
  }

  function Deliver(d: Dialect, v: Val, k: Stack, st: Store): Config
    decreases k, 1
  {
    if IsExit(v) then Jump(d, v, k, st) else Ret(v, k, st)
  }

  // ---------------------------------------------------------------- steps

  /** A fresh argument list, allocated from its last element. */
  function Listed(vals: seq<Val>, tail: Val, st: Store): Made {
    if vals == [] then Made(tail, st)
    else
      var rest := Listed(vals[1..], tail, st);
      MkCons(rest.store, vals[0], rest.val)
  }

  function StartArgs(f: Val, done: seq<Val>, rest: Val, env: nat, k: Stack, st: Store): Action {
    if rest.Cons? then Go(Ev(rest.car, env, Push(KArg(f, done, rest.cdr, env), k), st))
    else
      var argv := Listed(done, Nil, st);
      Enter(f, argv.val, env, k, argv.store)
  }

  /** Calling a function object. */
  function Enter(f: Val, args: Val, env: nat, k: Stack, st: Store): Action
    decreases Size(args)
  {
    match f
    case Native(Funcall) =>
      if args.Cons? then Enter(args.car, args.cdr, env, k, st) else Give(Raise(NotAFunction, Nil), k, st)
    case Native(Apply) =>
      if args.Cons? then
        assert Size(Car(args.cdr)) <= Size(args.cdr);
        Enter(args.car, Car(args.cdr), env, k, st)
      else Give(Raise(NotAFunction, Nil), k, st)
    case Native(Macroexpand1) =>
      var form := Car(args);
      if form.Cons? && form.car.Sym? && FunctionOf(st, form.car, env).Macro? then
        Go(EnterMacro(FunctionOf(st, form.car, env), form.cdr, k, st))
      else Give(form, k, st)
    case Native(MakeCons) =>
      var c := MkCons(st, Car(args), Car(Cdr(args)));
      Give(c.val, k, c.store)
    case Native(Library(id)) => Give(LibraryCall(st, id, args), k, st)
    case Closure(_, params, body, scope) =>
      var b := BindParams(NewFrame(st, scope), params, args, |st.envs|);
      if b.ok then Go(StartProgn(body, |st.envs|, k, b.store)) else Give(Raise(Arity, Nil), k, b.store)
    case _ => Give(Raise(NotAFunction, f), k, st)
  }

  function EnterMacro(m: Val, args: Val, k: Stack, st: Store): Config
    requires m.Macro?
  {
    StartProgn(m.body, |st.envs|, k, BindParams(NewFrame(st, m.scope), m.params, args, |st.envs|).store)
  }

  function Call(op: Name, args: Val, env: nat, k: Stack, st: Store): Action {
    var f := FunctionOf(st, Sym(op), env);
    if f.Macro? then Go(EnterMacro(f, args, Push(KExpansion(env), k), st))
    else if f == Nil then Give(Raise(UndefinedFunction, Sym(op)), k, st)
    else StartArgs(f, [], args, env, k, st)
  }

  function ReturnFrom(name: Val, v: Val, k: Stack, st: Store): Action {
    Give(if name in LiveBlocks(k) then BlockExit(name, v) else Raise(Control, Nil), k, st)
  }

  function Named(op: Name, args: Val, env: nat, k: Stack, st: Store): Action {
    match op
    case SQuote => Give(Car(args), k, st)
    case SIf => Go(Ev(Car(args), env, Push(KIf(Car(Cdr(args)), Cdr(Cdr(args)), env), k), st))
    case SProgn => Go(StartProgn(args, env, k, st))
    case SSetq =>
      if IsConstant(st.envs, Car(args), env) then Give(Raise(ImmutableBinding, Nil), k, st)
      else Go(Ev(Car(Cdr(args)), env, Push(KSetq(Car(args), env), k), st))
    case SDefun =>
      var f := MkClosure(st, Car(Cdr(args)), Cdr(Cdr(args)), env);
      Give(Car(args), k, SetFunction(f.store, Car(args), f.val, Owner(st.envs, env)))
    case SLambda =>
      var f := MkClosure(st, Car(args), Cdr(args), env);
      Give(f.val, k, f.store)
    case SDefmacro =>
      var m := MkMacro(st, Car(Cdr(args)), Cdr(Cdr(args)), env);
      Give(Car(args), k, SetFunction(m.store, Car(args), m.val, Owner(st.envs, env)))
    case SQuasiquote => StartTemplate(Compile(Car(args), 0), env, k, st)
    case SBlock => Go(StartProgn(Cdr(args), env, Push(KBlock(Car(args)), k), st))
    case SReturnFrom =>
      if Cdr(args) != Nil then Go(Ev(Car(Cdr(args)), env, Push(KReturnFrom(Car(args)), k), st))
      else ReturnFrom(Car(args), Nil, k, st)
    case SUnwindProtect => Go(Ev(Car(args), env, Push(KProtect(Cdr(args), env), k), st))
    case SFunction =>
      if !Car(args).Sym? then Go(Ev(Car(args), env, k, st))
      else
        var f := FunctionOf(st, Car(args), env);
        Give(if f == Nil then Raise(UndefinedFunction, Car(args)) else f, k, st)
    case SDeclaim => Give(Nil, k, st)
    case SDeclare => Give(Nil, k, st)
    case SFlet => Local(args, env, false, k, st)
    case SLabels => Local(args, env, true, k, st)
    case SDefvar =>
      var owner := Owner(st.envs, env);
      if owner < |st.envs| && Car(args) in st.envs[owner].vars then Give(Car(args), k, st)
      else if Cdr(args) != Nil then Go(Ev(Car(Cdr(args)), env, Push(KDefine(Defvar, Car(args), owner), k), st))
      else Give(Car(args), k, SetVariable(st, Car(args), Nil, owner))
    case SDefconstant =>
      Go(Ev(Car(Cdr(args)), env, Push(KDefine(Defconstant, Car(args), Owner(st.envs, env)), k), st))
    case SDefdynamic => Go(Ev(Car(Cdr(args)), env, Push(KDefine(Defdynamic, Car(args), GLOBAL), k), st))
    case SDefglobal =>
      Go(Ev(Car(Cdr(args)), env, Push(KDefine(Defglobal, Car(args), Owner(st.envs, env)), k), st))
    case SDynamic => Give(Dynamic(st, Car(args)), k, st)
    case SCatch => Go(Ev(Car(args), env, Push(KCatchTag(Cdr(args), env), k), st))
    case SThrow => Go(Ev(Car(args), env, Push(KThrowTag(Car(Cdr(args)), env), k), st))
    case STagbody => Go(RunTagbody(Elems(args), 0, env, k, st))
    case SGo => Give(GoExit(Car(args)), k, st)
    case _ => Call(op, args, env, k, st)
  }

  function Local(args: Val, env: nat, recursive: bool, k: Stack, st: Store): Action {
    var inner := |st.envs|;
    Go(StartProgn(Cdr(args), inner, k,
                  BindFunctions(NewFrame(st, env), Car(args), if recursive then inner else env, inner)))
  }

  function Define(kind: Definition, sym: Val, v: Val, owner: nat, st: Store): Store {
    match kind
    case Defconstant => MarkConstant(SetVariable(st, sym, v, owner), sym, owner)
    case Defdynamic => SetDynamic(st, sym, v)
    case _ => SetVariable(st, sym, v, owner)
  }

  /** A value reaches the top frame. */
  function Resume(v: Val, f: Frame, k: Stack, st: Store): Action {
    match f
    case KOperator(args, env) =>
      if v == Nil then Give(Raise(NotAFunction, Nil), k, st) else StartArgs(v, [], args, env, k, st)
    case KArg(g, done, rest, env) => StartArgs(g, done + [v], rest, env, k, st)
    case KExpansion(env) => Go(Ev(v, env, k, st))
    case KProgn(rest, env) => Go(StartProgn(rest, env, k, st))
    case KIf(then_, rest, env) =>
      if v != Nil then Go(Ev(then_, env, k, st))
      else if rest != Nil then Go(Ev(Car(rest), env, k, st))
      else Give(Nil, k, st)
    case KSetq(sym, env) => Give(v, k, SetqVariable(st, sym, v, env))
    case KDefine(kind, sym, owner) => Give(sym, k, Define(kind, sym, v, owner, st))
    case KBlock(_) => Give(v, k, st)
    case KReturnFrom(name) => ReturnFrom(name, v, k, st)
    case KProtect(cleanup, env) => Go(StartProgn(cleanup, env, Push(KCleanup(v), k), st))
    case KCleanup(result) => Give(result, k, st)
    case KCatchTag(body, env) => Go(StartProgn(body, env, Push(KCatch(v), k), st))
    case KCatch(_) => Give(v, k, st)
    case KThrowTag(form, env) => Go(Ev(form, env, Push(KThrow(v), k), st))
    case KThrow(tag) => Give(CatchExit(tag, v), k, st)
    case KTagbody(_, _, _) => FormDone(v, f, k, st)
    case KHead(t, tail, env) => StartTemplate(tail, env, Push(KTail(t, v), k), st)
    case KTail(t, head) =>
      var m := if t.Splicing? then Append(st, head, v) else MkCons(st, head, v);
      Give(m.val, k, m.store)
  }

  predicate Halted(c: Config) { c.Ret? && c.k.Bottom? }

  function Act(c: Config): Action {
    match c
    case Ev(exp, env, k, st) =>
      (match exp
       case Nil => Give(Nil, k, st)
       case Sym(_) => Give(Variable(st, exp, env), k, st)
       case Cons(_, op, args) =>
         if op.Sym? then Named(op.name, args, env, k, st)
         else Go(Ev(op, env, Push(KOperator(args, env), k), st))
       case _ => Give(exp, k, st))
    case Ret(v, Bottom, st) => Go(c)
    case Ret(v, Push(f, k), st) => Resume(v, f, k, st)
  }

  function Perform(d: Dialect, a: Action): Config {
    match a
    case Go(c) => c
    case Give(v, k, st) => Deliver(d, v, k, st)
    case FormDone(v, f, k, st) =>
      if (d.Implemented? && IsInstance(v)) || !f.KTagbody? then Ret(v, k, st)
      else RunTagbody(f.forms, f.pc, f.env, k, st)
  }

  function Step(d: Dialect, c: Config): Config {
    Perform(d, Act(c))
  }

  function Run(d: Dialect, n: nat, c: Config): Config {
    if n == 0 then c else Run(d, n - 1, Step(d, c))
  }

  lemma {:induction false} RunAdd(d: Dialect, m: nat, n: nat, c: Config)
    ensures Run(d, m + n, c) == Run(d, n, Run(d, m, c))
  {
    if m > 0 { RunAdd(d, m - 1, n, Step(d, c)); }
  }

  lemma {:induction false} HaltedStays(d: Dialect, n: nat, c: Config)
    requires Halted(c)
    ensures Run(d, n, c) == c
  {
    if n > 0 { HaltedStays(d, n - 1, c); }
  }

  /** The forms that bind names, and those that evaluate nothing. */
  predicate IsDefining(op: Name) {
    op.SQuote? || op.SLambda? || op.SDeclaim? || op.SDeclare? || op.SDynamic? || op.SGo? ||
    op.SSetq? || op.SDefun? || op.SDefmacro? || op.SFlet? || op.SLabels? ||
    op.SDefvar? || op.SDefconstant? || op.SDefdynamic? || op.SDefglobal?
  }

  /** Where a value or exit lands when the top of the stack is `f`. */
  lemma Lands(v: Val, f: Frame, rest: Stack, st: Store)
    ensures Deliver(D, v, Push(f, rest), st) ==
            if !IsExit(v) || Unguarded(f) || f.KExpansion? then Ret(v, Push(f, rest), st)
            else if f.KBlock? && Target(v) == f.name then Deliver(D, Payload(v), rest, st)
            else if f.KCatch? && v.CatchExit? && v.tag == f.tag then Deliver(D, v.value, rest, st)
            else if f.KTagbody? && v.GoExit? && Label(f.forms, v.tag).Some? then
              RunTagbody(f.forms, Label(f.forms, v.tag).value + 1, f.env, rest, st)
            else if f.KProtect? then StartProgn(f.cleanup, f.env, Push(KCleanup(v), rest), st)
            else if f.KCleanup? then Deliver(D, if IsExit(f.result) then Raise(Control, Nil) else v, rest, st)
            else Deliver(D, v, rest, st)
  {
    if IsExit(v) {
      assert Deliver(D, v, Push(f, rest), st) == Jump(D, v, Push(f, rest), st);
    }
  }

  // ---------------------------------------------------------------- whole programs

  /** A top-level form runs inside the block %TOP-LEVEL. */
  function Load(form: Val, env: nat, st: Store): Config {
    Ev(form, env, Push(KBlock(Sym(STopLevel)), Bottom), st)
  }

  ghost predicate Computes(d: Dialect, form: Val, env: nat, st: Store, v: Val, st': Store) {
    exists n: nat :: Run(d, n, Load(form, env, st)) == Ret(v, Bottom, st')
  }

  lemma HaltIsUnique(d: Dialect, m: nat, n: nat, c: Config)
    requires Halted(Run(d, m, c)) && Halted(Run(d, n, c))
    ensures Run(d, m, c) == Run(d, n, c)
  {
    if m <= n {
      RunAdd(d, m, n - m, c);
      HaltedStays(d, n - m, Run(d, m, c));
    } else {
      RunAdd(d, n, m - n, c);
      HaltedStays(d, m - n, Run(d, n, c));
    }
  }
}
