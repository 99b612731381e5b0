/** What every step of the machine keeps, and where eval.c departs from ISLISP.

    - The dialects differ in a step exactly when the step slips: an exit meets an
      operator position or quasiquote, a block named like its catch or go tag, or a
      tagbody form yields an instance.
    - Exits are never stored, and a block exit always has its block: in the ISLISP dialect
      after every step, in eval.c exactly as long as no exit meets an operator position or
      a quasiquote. */
module Discipline {
  import opened Lisp
  import opened Machine

  // ---------------------------------------------------------------- where the dialects differ

  /** Exit `x` comes to a frame that eval.c treats otherwise than ISLISP does, before it
      comes to its handler or to a cleanup. */
  predicate JumpSlips(x: Val, k: Stack)
    requires IsExit(x)
    decreases k
  {
    match k
    case Bottom => false
    case Push(f, rest) =>
      if Unguarded(f) then true
      else if f.KBlock? && Target(x) == f.name then !x.BlockExit?
      else if f.KCatch? && x.CatchExit? && x.tag == f.tag then false
      else if f.KTagbody? && x.GoExit? && Label(f.forms, x.tag).Some? then false
      else if f.KProtect? || f.KExpansion? then false
      else if f.KCleanup? && IsExit(f.result) then JumpSlips(Raise(Control, Nil), rest)
      else JumpSlips(x, rest)
  }

  predicate Slips(a: Action) {
    match a
    case Go(_) => false
    case Give(v, k, _) => IsExit(v) && JumpSlips(v, k)
    case FormDone(v, f, _, _) => IsInstance(v) && f.KTagbody?
  }

  function Depth(k: Stack): nat {
    match k
    case Bottom => 0
    case Push(_, rest) => 1 + Depth(rest)
  }

  /** A jump never hands a plain value to the very stack it started on. */
  lemma JumpMoves(d: Dialect, x: Val, k: Stack, st: Store)
    requires IsExit(x) && !IsExit(Payload(x))
    ensures var c := Jump(d, x, k, st);
            c.Ret? ==> Depth(c.k) <= Depth(k) && (!IsExit(c.val) ==> c.k != k)
    decreases k
  {
    match k
    case Bottom =>
    case Push(f, rest) =>
      JumpMoves(d, x, rest, st);
      JumpMoves(d, Raise(Control, Nil), rest, st);
  }

  /** In ISLISP an exit comes to rest as a value only at the bottom or in a macro expansion. */
  lemma IslispJumpRests(x: Val, k: Stack, st: Store)
    requires IsExit(x) && !IsExit(Payload(x))
    ensures var c := Jump(Islisp, x, k, st);
            c.Ret? && IsExit(c.val) ==> c.k.Bottom? || c.k.top.KExpansion?
    decreases k
  {
    match k
    case Bottom =>
    case Push(f, rest) =>
      IslispJumpRests(x, rest, st);
      IslispJumpRests(Raise(Control, Nil), rest, st);
  }

  lemma JumpsAgreeIff(x: Val, k: Stack, st: Store)
    requires IsExit(x) && !IsExit(Payload(x))
    ensures Jump(Islisp, x, k, st) == Jump(Implemented, x, k, st) <==> !JumpSlips(x, k)
    decreases k
  {
    match k
    case Bottom =>
    case Push(f, rest) =>
      if Unguarded(f) {
        IslispJumpRests(x, rest, st);
      } else if f.KBlock? && Target(x) == f.name {
        JumpMoves(Islisp, x, rest, st);
        assert Deliver(Implemented, Payload(x), rest, st) == Deliver(Islisp, Payload(x), rest, st);
      } else if f.KCleanup? && IsExit(f.result) {
        JumpsAgreeIff(Raise(Control, Nil), rest, st);
      } else {
        JumpsAgreeIff(x, rest, st);
      }
  }

  /** The dialects take the same step exactly when the step does not slip. */
  lemma StepsAgreeIff(c: Config)
    requires Act(c).Give? && IsExit(Act(c).val) ==> !IsExit(Payload(Act(c).val))
    ensures Step(Islisp, c) == Step(Implemented, c) <==> !Slips(Act(c))
  {
    match Act(c)
    case Go(_) =>
    case Give(v, k, st) => if IsExit(v) { JumpsAgreeIff(v, k, st); }
    case FormDone(v, f, k, st) =>
  }

  /** None of the first `n` steps of the implemented dialect slips. */
  predicate NoSlip(n: nat, c: Config) {
    n == 0 || (!Slips(Act(c)) && NoSlip(n - 1, Step(Implemented, c)))
  }

  // ---------------------------------------------------------------- exits are never stored

  predicate ExitFree(v: Val) {
    match v
    case Cons(_, a, b) => ExitFree(a) && ExitFree(b)
    case Closure(_, p, b, _) => ExitFree(p) && ExitFree(b)
    case Macro(_, p, b, _) => ExitFree(p) && ExitFree(b)
    case Condition(_, c) => ExitFree(c)
    case _ => !IsExit(v)
  }

  /** An exit on its way: nothing inside it is an exit. */
  predicate Travelling(x: Val) {
    IsExit(x) && ExitFree(Target(x)) && ExitFree(Payload(x))
  }

  predicate AllExitFree(vs: seq<Val>) {
    forall i :: 0 <= i < |vs| ==> ExitFree(vs[i])
  }

  ghost predicate MapExitFree(m: map<Val, Val>) {
    forall k :: k in m ==> ExitFree(m[k])
  }

  ghost predicate EnvExitFree(e: Env) {
    MapExitFree(e.vars) && MapExitFree(e.funs)
  }

  ghost predicate EnvsExitFree(envs: seq<Env>) {
    envs == [] || (EnvExitFree(envs[0]) && EnvsExitFree(envs[1..]))
  }

  predicate Signalled(x: Val) {
    Travelling(x) && (x.BlockExit? ==> x.dest == Sym(STopLevel))
  }

  ghost predicate LibraryOk(library: map<(nat, Val), Val>) {
    forall q :: q in library ==> ExitFree(library[q]) || Signalled(library[q])
  }

  /** No variable, function binding or dynamic variable holds an exit, at any depth; library
      functions return such values or signal. */
  ghost predicate StoreExitFree(st: Store) {
    EnvsExitFree(st.envs) && MapExitFree(st.dyn) && LibraryOk(st.library)
  }

  predicate TemplateExitFree(t: Template) {
    match t
    case Constant(v) => ExitFree(v)
    case Unquoted(e) => ExitFree(e)
    case Pairing(h, u) => TemplateExitFree(h) && TemplateExitFree(u)
    case Splicing(h, u) => TemplateExitFree(h) && TemplateExitFree(u)
  }

  /** A block exit aims at a block on the stack. */
  predicate Aimed(x: Val, k: Stack) {
    x.BlockExit? ==> x.dest in LiveBlocks(k)
  }

  /** The values and forms a frame holds, apart from an outcome waiting for its cleanup. */
  function Held(f: Frame): seq<Val> {
    match f
    case KOperator(args, _) => [args]
    case KArg(g, done, more, _) => [g, more] + done
    case KExpansion(_) => []
    case KProgn(more, _) => [more]
    case KIf(a, b, _) => [a, b]
    case KSetq(s, _) => [s]
    case KDefine(_, s, _) => [s]
    case KBlock(n) => [n]
    case KReturnFrom(n) => [n]
    case KProtect(c, _) => [c]
    case KCleanup(r) => []
    case KCatchTag(b, _) => [b]
    case KCatch(t) => [t]
    case KThrowTag(e, _) => [e]
    case KThrow(t) => [t]
    case KTagbody(forms, _, _) => forms
    case KHead(_, _, _) => []
    case KTail(_, h) => [h]
  }

  predicate FrameOk(f: Frame, rest: Stack) {
    && (forall v :: v in Held(f) ==> ExitFree(v))
    && (f.KHead? ==> TemplateExitFree(f.tail))
    && (f.KCleanup? ==> ExitFree(f.result) || (Travelling(f.result) && Aimed(f.result, rest)))
  }

  /** Frames hold no exits, except an outcome waiting for its cleanup; the bottom frame is
      the block %TOP-LEVEL. */
  predicate StackOk(k: Stack) {
    match k
    case Bottom => true
    case Push(f, rest) => StackOk(rest) && FrameOk(f, rest) && (rest.Bottom? ==> f == KBlock(Sym(STopLevel)))
  }

  ghost predicate Sound(c: Config) {
    && StackOk(c.k) && StoreExitFree(c.st)
    && match c
       case Ev(e, _, k, _) => k.Push? && (ExitFree(e) || (Travelling(e) && Aimed(e, k)))
       case Ret(v, k, _) =>
         ExitFree(v) || (Travelling(v) && Aimed(v, k) && (k.Bottom? || k.top.KExpansion?))
  }

  ghost predicate SoundAction(a: Action) {
    match a
    case Go(c) => Sound(c)
    case Give(v, k, st) => StackOk(k) && StoreExitFree(st) && (ExitFree(v) || (Travelling(v) && Aimed(v, k)))
    case FormDone(v, f, k, st) =>
      f.KTagbody? && AllExitFree(f.forms) && ExitFree(v) && StoreExitFree(st) && StackOk(k) && k.Push?
  }

  lemma TopLevelIsLive(k: Stack)
    requires StackOk(k) && k.Push?
    ensures Sym(STopLevel) in LiveBlocks(k)
  {
    if k.rest.Push? { TopLevelIsLive(k.rest); }
  }

  /** A signalled condition can be handed to any stack but the empty one. */
  lemma RaiseSound(error: Error, culprit: Val, k: Stack)
    requires StackOk(k) && k.Push? && ExitFree(culprit)
    ensures Travelling(Raise(error, culprit)) && Aimed(Raise(error, culprit), k)
  {
    TopLevelIsLive(k);
    assert ExitFree(Condition(error, culprit));
  }

  /** The parts of a form that the special forms take apart. */
  lemma PartsExitFree(v: Val)
    requires ExitFree(v)
    ensures ExitFree(Car(v)) && ExitFree(Cdr(v))
    ensures ExitFree(Car(Cdr(v))) && ExitFree(Cdr(Cdr(v))) && ExitFree(Car(Cdr(Cdr(v))))
  {
    assert ExitFree(Cdr(v));
    assert ExitFree(Cdr(Cdr(v)));
  }

  lemma {:induction false} EnvsExitFreeAt(envs: seq<Env>)
    ensures EnvsExitFree(envs) <==> forall i :: 0 <= i < |envs| ==> EnvExitFree(envs[i])
  {
    if envs != [] {
      EnvsExitFreeAt(envs[1..]);
      assert forall i :: 0 <= i < |envs| - 1 ==> envs[1..][i] == envs[i + 1];
      assert forall i :: 1 <= i < |envs| ==> envs[i] == envs[1..][i - 1];
    }
  }

  lemma ElemsExitFree(list: Val)
    requires ExitFree(list)
    ensures AllExitFree(Elems(list))
  {
  }

  lemma CompiledExitFree(form: Val, depth: nat)
    requires ExitFree(form)
    ensures TemplateExitFree(Compile(form, depth))
    decreases form
  {
    if form.Cons? {
      PartsExitFree(form);
      PartsExitFree(form.car);
      if form.cdr.Cons? {
        CompiledExitFree(form.cdr.car, depth + 1);
        if depth > 0 { CompiledExitFree(form.cdr.car, depth - 1); }
      }
      if form.car.Cons? && form.car.cdr.Cons? && depth > 0 { CompiledExitFree(form.car.cdr.car, depth - 1); }
      CompiledExitFree(form.car, depth);
      CompiledExitFree(form.cdr, depth);
    }
  }

  // ---- the store operations

  lemma SetVariableSound(st: Store, sym: Val, v: Val, env: nat)
    requires StoreExitFree(st) && ExitFree(v)
    ensures StoreExitFree(SetVariable(st, sym, v, env))
  {
    EnvsExitFreeAt(st.envs);
    EnvsExitFreeAt(SetVariable(st, sym, v, env).envs);
  }

  lemma SetFunctionSound(st: Store, sym: Val, f: Val, env: nat)
    requires StoreExitFree(st) && ExitFree(f)
    ensures StoreExitFree(SetFunction(st, sym, f, env))
  {
    EnvsExitFreeAt(st.envs);
    EnvsExitFreeAt(SetFunction(st, sym, f, env).envs);
  }

  lemma DefineSound(kind: Definition, sym: Val, v: Val, owner: nat, st: Store)
    requires StoreExitFree(st) && ExitFree(v)
    ensures StoreExitFree(Define(kind, sym, v, owner, st))
  {
    SetVariableSound(st, sym, v, owner);
    EnvsExitFreeAt(SetVariable(st, sym, v, owner).envs);
    EnvsExitFreeAt(Define(kind, sym, v, owner, st).envs);
  }

  lemma LookupSound(st: Store, sym: Val, env: nat)
    requires StoreExitFree(st) && ExitFree(sym)
    ensures ExitFree(FunctionOf(st, sym, env)) && ExitFree(Dynamic(st, sym))
    ensures ExitFree(Variable(st, sym, env)) || Variable(st, sym, env) == Raise(UnboundVariable, sym)
  {
    FoundVariable(st.envs, sym, env);
    FoundFunction(st.envs, sym, env);
    EnvsExitFreeAt(st.envs);
  }

  lemma {:induction false} BindParamsSound(st: Store, params: Val, args: Val, env: nat)
    requires StoreExitFree(st) && ExitFree(args)
    ensures StoreExitFree(BindParams(st, params, args, env).store)
    decreases params
  {
    if params.Cons? {
      if params.car == Sym(SRest) {
        SetVariableSound(st, Car(params.cdr), args, env);
      } else if args != Nil {
        SetVariableSound(st, params.car, Car(args), env);
        BindParamsSound(SetVariable(st, params.car, Car(args), env), params.cdr, Cdr(args), env);
      }
    }
  }

  lemma {:induction false} BindFunctionsSound(st: Store, bindings: Val, scope: nat, target: nat)
    requires StoreExitFree(st) && ExitFree(bindings)
    ensures StoreExitFree(BindFunctions(st, bindings, scope, target))
    decreases bindings
  {
    if bindings.Cons? {
      var b := bindings.car;
      PartsExitFree(b);
      var f := MkClosure(st, Car(Cdr(b)), Cdr(Cdr(b)), scope);
      SetFunctionSound(f.store, Car(b), f.val, target);
      BindFunctionsSound(SetFunction(f.store, Car(b), f.val, target), bindings.cdr, scope, target);
    }
  }

  lemma NewFrameSound(st: Store, parent: nat)
    requires StoreExitFree(st)
    ensures StoreExitFree(NewFrame(st, parent))
  {
    EnvsExitFreeAt(st.envs);
    EnvsExitFreeAt(NewFrame(st, parent).envs);
  }

  lemma {:induction false} AppendSound(st: Store, list: Val, tail: Val)
    requires StoreExitFree(st) && ExitFree(list) && ExitFree(tail)
    ensures var m := Append(st, list, tail); ExitFree(m.val) && StoreExitFree(m.store)
    decreases list
  {
    if list.Cons? { AppendSound(st, list.cdr, tail); }
  }

  lemma {:induction false} ListedSound(vals: seq<Val>, tail: Val, st: Store)
    requires StoreExitFree(st) && AllExitFree(vals) && ExitFree(tail)
    ensures var m := Listed(vals, tail, st); ExitFree(m.val) && StoreExitFree(m.store)
  {
    if vals != [] { ListedSound(vals[1..], tail, st); }
  }

  // ---- the parts of a step

  lemma StartPrognSound(body: Val, env: nat, k: Stack, st: Store)
    requires ExitFree(body) && StackOk(k) && k.Push? && StoreExitFree(st)
    ensures Sound(StartProgn(body, env, k, st))
  {
    if body.Cons? { assert StackOk(Push(KProgn(body.cdr, env), k)); }
  }

  lemma RunTagbodySound(forms: seq<Val>, pc: nat, env: nat, k: Stack, st: Store)
    requires AllExitFree(forms) && StackOk(k) && k.Push? && StoreExitFree(st)
    ensures Sound(RunTagbody(forms, pc, env, k, st))
  {
    assert StackOk(Push(KTagbody(forms, NextForm(forms, pc) + 1, env), k));
  }

  lemma StartTemplateSound(t: Template, env: nat, k: Stack, st: Store)
    requires TemplateExitFree(t) && StackOk(k) && k.Push? && StoreExitFree(st)
    ensures SoundAction(StartTemplate(t, env, k, st))
    decreases t
  {
    if t.Pairing? || t.Splicing? {
      assert StackOk(Push(KHead(t, t.tail, env), k));
      StartTemplateSound(t.head, env, Push(KHead(t, t.tail, env), k), st);
    }
  }

  /** An exit reaches an unwind-protect, or the tagbody it aims at. */
  lemma CaughtSound(d: Dialect, x: Val, f: Frame, k: Stack, st: Store)
    requires Travelling(x) && Aimed(x, Push(f, k)) && StackOk(Push(f, k)) && StoreExitFree(st)
    requires f.KProtect? || (f.KTagbody? && x.GoExit? && Label(f.forms, x.tag).Some?)
    ensures Sound(Jump(d, x, Push(f, k), st))
  {
    if f.KProtect? {
      assert StackOk(Push(KCleanup(x), k));
      StartPrognSound(f.cleanup, f.env, Push(KCleanup(x), k), st);
    } else {
      RunTagbodySound(f.forms, Label(f.forms, x.tag).value + 1, f.env, k, st);
    }
  }

  lemma {:induction false} JumpSound(x: Val, k: Stack, st: Store)
    requires Travelling(x) && Aimed(x, k) && StackOk(k) && StoreExitFree(st)
    ensures Sound(Jump(Islisp, x, k, st))
    decreases k
  {
    match k
    case Bottom =>
    case Push(f, rest) =>
      if f.KProtect? || (f.KTagbody? && x.GoExit? && Label(f.forms, x.tag).Some?) {
        CaughtSound(Islisp, x, f, rest, st);
      } else if f.KCleanup? && IsExit(f.result) {
        RaiseSound(Control, Nil, rest);
        JumpSound(Raise(Control, Nil), rest, st);
      } else if !f.KExpansion? && !(f.KBlock? && BlockCatches(Islisp, f.name, x))
          && !(f.KCatch? && x.CatchExit? && x.tag == f.tag) {
        JumpSound(x, rest, st);
      }
  }

  /** Exit `x` comes to a frame that goes on with whatever value it gets, before it comes to its
      handler, to a cleanup or to a macro expansion. */
  predicate Leaks(x: Val, k: Stack)
    requires IsExit(x)
    decreases k
  {
    match k
    case Bottom => false
    case Push(f, rest) =>
      if Unguarded(f) then true
      else if f.KBlock? && Target(x) == f.name then false
      else if f.KCatch? && x.CatchExit? && x.tag == f.tag then false
      else if f.KTagbody? && x.GoExit? && Label(f.forms, x.tag).Some? then false
      else if f.KProtect? || f.KExpansion? then false
      else if f.KCleanup? && IsExit(f.result) then Leaks(Raise(Control, Nil), rest)
      else Leaks(x, rest)
  }

  lemma {:induction false} LeakIsSlip(x: Val, k: Stack)
    requires IsExit(x)
    ensures Leaks(x, k) ==> JumpSlips(x, k)
    decreases k
  {
    if k.Push? {
      LeakIsSlip(x, k.rest);
      LeakIsSlip(Raise(Control, Nil), k.rest);
    }
  }

  lemma {:induction false} JumpSoundIff(x: Val, k: Stack, st: Store)
    requires Travelling(x) && Aimed(x, k) && StackOk(k) && StoreExitFree(st)
    ensures Sound(Jump(Implemented, x, k, st)) <==> !Leaks(x, k)
    decreases k
  {
    match k
    case Bottom =>
    case Push(f, rest) =>
      if Unguarded(f) {
      } else if f.KProtect? || (f.KTagbody? && x.GoExit? && Label(f.forms, x.tag).Some?) {
        CaughtSound(Implemented, x, f, rest, st);
      } else if f.KCleanup? && IsExit(f.result) {
        RaiseSound(Control, Nil, rest);
        JumpSoundIff(Raise(Control, Nil), rest, st);
      } else if !f.KExpansion? && !(f.KBlock? && Target(x) == f.name)
          && !(f.KCatch? && x.CatchExit? && x.tag == f.tag) {
        JumpSoundIff(x, rest, st);
      }
  }

  lemma EnterMacroSound(m: Val, args: Val, k: Stack, st: Store)
    requires m.Macro? && ExitFree(m) && ExitFree(args) && StackOk(k) && k.Push? && StoreExitFree(st)
    ensures Sound(EnterMacro(m, args, k, st))
  {
    NewFrameSound(st, m.scope);
    BindParamsSound(NewFrame(st, m.scope), m.params, args, |st.envs|);
  }

  lemma ClosureSound(f: Val, args: Val, env: nat, k: Stack, st: Store)
    requires f.Closure? && ExitFree(f) && ExitFree(args) && StackOk(k) && k.Push? && StoreExitFree(st)
    ensures SoundAction(Enter(f, args, env, k, st))
  {
    RaiseSound(Arity, Nil, k);
    NewFrameSound(st, f.scope);
    BindParamsSound(NewFrame(st, f.scope), f.params, args, |st.envs|);
    StartPrognSound(f.body, |st.envs|, k, BindParams(NewFrame(st, f.scope), f.params, args, |st.envs|).store);
  }

  lemma PrimitiveSound(f: Val, args: Val, env: nat, k: Stack, st: Store)
    requires f == Native(Macroexpand1) || f == Native(MakeCons) || (f.Native? && f.prim.Library?)
    requires ExitFree(args) && StackOk(k) && k.Push? && StoreExitFree(st)
    ensures SoundAction(Enter(f, args, env, k, st))
  {
    TopLevelIsLive(k);
    PartsExitFree(args);
    if f == Native(Macroexpand1) {
      var form := Car(args);
      if form.Cons? && form.car.Sym? && FunctionOf(st, form.car, env).Macro? {
        LookupSound(st, form.car, env);
        EnterMacroSound(FunctionOf(st, form.car, env), form.cdr, k, st);
      }
    }
  }

  lemma {:induction false} EnterSound(f: Val, args: Val, env: nat, k: Stack, st: Store)
    requires ExitFree(f) && ExitFree(args) && StackOk(k) && k.Push? && StoreExitFree(st)
    ensures SoundAction(Enter(f, args, env, k, st))
    decreases Size(args)
  {
    if f == Native(Funcall) && args.Cons? {
      EnterSound(args.car, args.cdr, env, k, st);
    } else if f == Native(Apply) && args.Cons? {
      assert Size(Car(args.cdr)) <= Size(args.cdr);
      EnterSound(args.car, Car(args.cdr), env, k, st);
    } else if f.Closure? {
      ClosureSound(f, args, env, k, st);
    } else if f.Native? && !(f.prim.Funcall? || f.prim.Apply?) {
      PrimitiveSound(f, args, env, k, st);
    } else {
      RaiseSound(NotAFunction, f, k);
      RaiseSound(NotAFunction, Nil, k);
    }
  }

  lemma StartArgsSound(f: Val, done: seq<Val>, rest: Val, env: nat, k: Stack, st: Store)
    requires ExitFree(f) && AllExitFree(done) && ExitFree(rest) && StackOk(k) && k.Push? && StoreExitFree(st)
    ensures SoundAction(StartArgs(f, done, rest, env, k, st))
  {
    if rest.Cons? {
      assert StackOk(Push(KArg(f, done, rest.cdr, env), k));
    } else {
      ListedSound(done, Nil, st);
      EnterSound(f, Listed(done, Nil, st).val, env, k, Listed(done, Nil, st).store);
    }
  }

  lemma ReturnFromSound(name: Val, v: Val, k: Stack, st: Store)
    requires ExitFree(name) && ExitFree(v) && StackOk(k) && k.Push? && StoreExitFree(st)
    ensures SoundAction(ReturnFrom(name, v, k, st))
  {
    RaiseSound(Control, Nil, k);
  }

  lemma CallSound(op: Name, args: Val, env: nat, k: Stack, st: Store)
    requires ExitFree(args) && StackOk(k) && k.Push? && StoreExitFree(st)
    ensures SoundAction(Call(op, args, env, k, st))
  {
    LookupSound(st, Sym(op), env);
    var f := FunctionOf(st, Sym(op), env);
    if f.Macro? {
      assert StackOk(Push(KExpansion(env), k));
      EnterMacroSound(f, args, Push(KExpansion(env), k), st);
    } else if f != Nil {
      StartArgsSound(f, [], args, env, k, st);
    } else {
      RaiseSound(UndefinedFunction, Sym(op), k);
    }
  }

  lemma LocalSound(args: Val, env: nat, recursive: bool, k: Stack, st: Store)
    requires ExitFree(args) && StackOk(k) && k.Push? && StoreExitFree(st)
    ensures SoundAction(Local(args, env, recursive, k, st))
  {
    var inner := |st.envs|;
    NewFrameSound(st, env);
    BindFunctionsSound(NewFrame(st, env), Car(args), if recursive then inner else env, inner);
    StartPrognSound(Cdr(args), inner, k,
                    BindFunctions(NewFrame(st, env), Car(args), if recursive then inner else env, inner));
  }

  lemma FunctionDefinitionSound(op: Name, args: Val, env: nat, k: Stack, st: Store)
    requires op.SDefun? || op.SDefmacro? || op.SLambda?
    requires ExitFree(args) && StackOk(k) && k.Push? && StoreExitFree(st)
    ensures SoundAction(Named(op, args, env, k, st))
  {
    PartsExitFree(args);
    var owner := Owner(st.envs, env);
    var f := MkClosure(st, Car(Cdr(args)), Cdr(Cdr(args)), env);
    SetFunctionSound(f.store, Car(args), f.val, owner);
    var m := MkMacro(st, Car(Cdr(args)), Cdr(Cdr(args)), env);
    SetFunctionSound(m.store, Car(args), m.val, owner);
  }

  lemma EvalSound(e: Val, env: nat, f: Frame, k: Stack, st: Store)
    requires ExitFree(e) && FrameOk(f, k) && StackOk(k) && k.Push? && StoreExitFree(st)
    ensures SoundAction(Go(Ev(e, env, Push(f, k), st)))
  {
    assert StackOk(Push(f, k));
  }

  lemma DefinitionSound(op: Name, args: Val, env: nat, k: Stack, st: Store)
    requires op.SDefconstant? || op.SDefdynamic? || op.SDefglobal?
    requires ExitFree(args) && StackOk(k) && k.Push? && StoreExitFree(st)
    ensures SoundAction(Named(op, args, env, k, st))
  {
    PartsExitFree(args);
    var f := if op.SDefdynamic? then KDefine(Defdynamic, Car(args), GLOBAL)
             else KDefine(if op.SDefglobal? then Defglobal else Defconstant, Car(args), Owner(st.envs, env));
    EvalSound(Car(Cdr(args)), env, f, k, st);
  }

  lemma DefvarSound(args: Val, env: nat, k: Stack, st: Store)
    requires ExitFree(args) && StackOk(k) && k.Push? && StoreExitFree(st)
    ensures SoundAction(Named(SDefvar, args, env, k, st))
  {
    PartsExitFree(args);
    var owner := Owner(st.envs, env);
    SetVariableSound(st, Car(args), Nil, owner);
    EvalSound(Car(Cdr(args)), env, KDefine(Defvar, Car(args), owner), k, st);
  }

  lemma ControlSound(op: Name, args: Val, env: nat, k: Stack, st: Store)
    requires op.SBlock? || op.STagbody?
    requires ExitFree(args) && StackOk(k) && k.Push? && StoreExitFree(st)
    ensures SoundAction(Named(op, args, env, k, st))
  {
    PartsExitFree(args);
    if op.SBlock? {
      assert StackOk(Push(KBlock(Car(args)), k));
      StartPrognSound(Cdr(args), env, Push(KBlock(Car(args)), k), st);
    } else {
      ElemsExitFree(args);
      RunTagbodySound(Elems(args), 0, env, k, st);
    }
  }

  lemma LeaveSound(args: Val, env: nat, k: Stack, st: Store)
    requires ExitFree(args) && StackOk(k) && k.Push? && StoreExitFree(st)
    ensures SoundAction(Named(SReturnFrom, args, env, k, st))
  {
    PartsExitFree(args);
    EvalSound(Car(Cdr(args)), env, KReturnFrom(Car(args)), k, st);
    ReturnFromSound(Car(args), Nil, k, st);
  }

  lemma GuardSound(op: Name, args: Val, env: nat, k: Stack, st: Store)
    requires op.SUnwindProtect? || op.SCatch? || op.SThrow?
    requires ExitFree(args) && StackOk(k) && k.Push? && StoreExitFree(st)
    ensures SoundAction(Named(op, args, env, k, st))
  {
    PartsExitFree(args);
    var f := if op.SUnwindProtect? then KProtect(Cdr(args), env)
             else if op.SCatch? then KCatchTag(Cdr(args), env) else KThrowTag(Car(Cdr(args)), env);
    EvalSound(Car(args), env, f, k, st);
  }

  lemma ConditionalSound(args: Val, env: nat, k: Stack, st: Store)
    requires ExitFree(args) && StackOk(k) && k.Push? && StoreExitFree(st)
    ensures SoundAction(Named(SIf, args, env, k, st))
  {
    PartsExitFree(args);
    EvalSound(Car(args), env, KIf(Car(Cdr(args)), Cdr(Cdr(args)), env), k, st);
  }

  lemma SetqSound(args: Val, env: nat, k: Stack, st: Store)
    requires ExitFree(args) && StackOk(k) && k.Push? && StoreExitFree(st)
    ensures SoundAction(Named(SSetq, args, env, k, st))
  {
    PartsExitFree(args);
    RaiseSound(ImmutableBinding, Nil, k);
    EvalSound(Car(Cdr(args)), env, KSetq(Car(args), env), k, st);
  }

  lemma ReferenceSound(op: Name, args: Val, env: nat, k: Stack, st: Store)
    requires op.SFunction? || op.SDynamic?
    requires ExitFree(args) && StackOk(k) && k.Push? && StoreExitFree(st)
    ensures SoundAction(Named(op, args, env, k, st))
  {
    PartsExitFree(args);
    RaiseSound(UndefinedFunction, Car(args), k);
    LookupSound(st, Car(args), env);
  }

  lemma SequenceSound(op: Name, args: Val, env: nat, k: Stack, st: Store)
    requires op.SProgn? || op.SQuasiquote?
    requires ExitFree(args) && StackOk(k) && k.Push? && StoreExitFree(st)
    ensures SoundAction(Named(op, args, env, k, st))
  {
    if op.SProgn? {
      StartPrognSound(args, env, k, st);
    } else {
      PartsExitFree(args);
      CompiledExitFree(Car(args), 0);
      StartTemplateSound(Compile(Car(args), 0), env, k, st);
    }
  }

  /** The forms that evaluate a form, or look something up, before anything else. */
  predicate IsExpression(op: Name) {
    op.SIf? || op.SSetq? || op.SFunction? || op.SDynamic? || op.SProgn? || op.SQuasiquote?
  }

  lemma ExpressionSound(op: Name, args: Val, env: nat, k: Stack, st: Store)
    requires IsExpression(op)
    requires ExitFree(args) && StackOk(k) && k.Push? && StoreExitFree(st)
    ensures SoundAction(Named(op, args, env, k, st))
  {
    if op.SIf? {
      ConditionalSound(args, env, k, st);
    } else if op.SSetq? {
      SetqSound(args, env, k, st);
    } else if op.SFunction? || op.SDynamic? {
      ReferenceSound(op, args, env, k, st);
    } else {
      SequenceSound(op, args, env, k, st);
    }
  }

  lemma NamedSound(op: Name, args: Val, env: nat, k: Stack, st: Store)
    requires ExitFree(args) && StackOk(k) && k.Push? && StoreExitFree(st)
    ensures SoundAction(Named(op, args, env, k, st))
  {
    if op.SDefun? || op.SDefmacro? || op.SLambda? {
      FunctionDefinitionSound(op, args, env, k, st);
    } else if op.SDefvar? {
      DefvarSound(args, env, k, st);
    } else if op.SDefconstant? || op.SDefdynamic? || op.SDefglobal? {
      DefinitionSound(op, args, env, k, st);
    } else if op.SFlet? || op.SLabels? {
      LocalSound(args, env, op.SLabels?, k, st);
    } else if op.SBlock? || op.STagbody? {
      ControlSound(op, args, env, k, st);
    } else if op.SReturnFrom? {
      LeaveSound(args, env, k, st);
    } else if op.SUnwindProtect? || op.SCatch? || op.SThrow? {
      GuardSound(op, args, env, k, st);
    } else if IsExpression(op) {
      ExpressionSound(op, args, env, k, st);
    } else if op.SQuote? || op.SGo? {
      PartsExitFree(args);
    } else if !(op.SDeclaim? || op.SDeclare?) {
      CallSound(op, args, env, k, st);
    }
  }

  lemma ResumeSequenceSound(v: Val, f: Frame, k: Stack, st: Store)
    requires f.KOperator? || f.KArg? || f.KProgn? || f.KHead? || f.KTail?
    requires ExitFree(v) && StackOk(Push(f, k)) && StoreExitFree(st)
    ensures SoundAction(Resume(v, f, k, st))
  {
    if f.KOperator? {
      RaiseSound(NotAFunction, Nil, k);
      assert f.args in Held(f);
      if v != Nil { StartArgsSound(v, [], f.args, f.env, k, st); }
    } else if f.KArg? {
      assert f.f in Held(f) && f.rest in Held(f);
      assert forall i :: 0 <= i < |f.done| ==> f.done[i] in Held(f);
      StartArgsSound(f.f, f.done + [v], f.rest, f.env, k, st);
    } else if f.KProgn? {
      assert f.rest in Held(f);
      StartPrognSound(f.rest, f.env, k, st);
    } else if f.KHead? {
      assert StackOk(Push(KTail(f.t, v), k));
      StartTemplateSound(f.tail, f.env, Push(KTail(f.t, v), k), st);
    } else {
      assert f.head in Held(f);
      if f.t.Splicing? { AppendSound(st, f.head, v); }
    }
  }

  lemma ResumeBindingSound(v: Val, f: Frame, k: Stack, st: Store)
    requires f.KExpansion? || f.KIf? || f.KSetq? || f.KDefine? || f.KBlock? || f.KCatch? || f.KThrow? || f.KCleanup?
    requires ExitFree(v) && StackOk(Push(f, k)) && StoreExitFree(st)
    ensures SoundAction(Resume(v, f, k, st))
  {
    if f.KIf? {
      assert f.then_ in Held(f) && f.rest in Held(f);
      PartsExitFree(f.rest);
    } else if f.KSetq? {
      var at := FindVariable(st.envs, f.sym, f.env);
      SetVariableSound(st, f.sym, v, if at.Some? then at.value else f.env);
    } else if f.KDefine? {
      assert f.sym in Held(f);
      DefineSound(f.kind, f.sym, v, f.owner, st);
    } else if f.KThrow? {
      assert f.tag in Held(f);
    }
  }

  lemma ResumeGuardSound(v: Val, f: Frame, k: Stack, st: Store)
    requires f.KReturnFrom? || f.KProtect? || f.KCatchTag? || f.KThrowTag? || f.KTagbody?
    requires ExitFree(v) && StackOk(Push(f, k)) && StoreExitFree(st)
    ensures SoundAction(Resume(v, f, k, st))
  {
    if f.KReturnFrom? {
      assert f.name in Held(f);
      ReturnFromSound(f.name, v, k, st);
    } else if f.KProtect? {
      assert f.cleanup in Held(f);
      assert StackOk(Push(KCleanup(v), k));
      StartPrognSound(f.cleanup, f.env, Push(KCleanup(v), k), st);
    } else if f.KCatchTag? {
      assert f.body in Held(f);
      assert StackOk(Push(KCatch(v), k));
      StartPrognSound(f.body, f.env, Push(KCatch(v), k), st);
    } else if f.KThrowTag? {
      assert f.form in Held(f);
      assert StackOk(Push(KThrow(v), k));
    } else {
      assert forall i :: 0 <= i < |f.forms| ==> f.forms[i] in Held(f);
    }
  }

  lemma ResumeSound(v: Val, f: Frame, k: Stack, st: Store)
    requires ExitFree(v) && StackOk(Push(f, k)) && StoreExitFree(st)
    ensures SoundAction(Resume(v, f, k, st))
  {
    if f.KOperator? || f.KArg? || f.KProgn? || f.KHead? || f.KTail? {
      ResumeSequenceSound(v, f, k, st);
    } else if f.KReturnFrom? || f.KProtect? || f.KCatchTag? || f.KThrowTag? || f.KTagbody? {
      ResumeGuardSound(v, f, k, st);
    } else {
      ResumeBindingSound(v, f, k, st);
    }
  }

  lemma ActSound(c: Config)
    requires Sound(c)
    ensures SoundAction(Act(c))
  {
    match c
    case Ev(e, env, k, st) =>
      if e.Sym? { RaiseSound(UnboundVariable, e, k); }
      if e.Sym? {
        LookupSound(st, e, env);
      } else if e.Cons? && e.car.Sym? {
        NamedSound(e.car.name, e.cdr, env, k, st);
      }
    case Ret(v, k, st) =>
      if k.Push? {
        if ExitFree(v) { ResumeSound(v, k.top, k.rest, st); }
      }
  }

  /** In ISLISP every step keeps the discipline. */
  lemma StepSound(c: Config)
    requires Sound(c)
    ensures Sound(Step(Islisp, c))
  {
    ActSound(c);
    match Act(c)
    case Go(_) =>
    case Give(v, k, st) => if IsExit(v) { JumpSound(v, k, st); }
    case FormDone(v, f, k, st) => RunTagbodySound(f.forms, f.pc, f.env, k, st);
  }

  /** The step lets an exit into an operator position or a quasiquote. */
  predicate LeakingStep(c: Config) {
    Act(c).Give? && IsExit(Act(c).val) && Leaks(Act(c).val, Act(c).k)
  }

  /** In eval.c a step keeps the discipline exactly if it does not leak. */
  lemma StepSoundIff(c: Config)
    requires Sound(c)
    ensures Sound(Step(Implemented, c)) <==> !LeakingStep(c)
  {
    ActSound(c);
    match Act(c)
    case Go(_) =>
    case Give(v, k, st) => if IsExit(v) { JumpSoundIff(v, k, st); }
    case FormDone(v, f, k, st) => RunTagbodySound(f.forms, f.pc, f.env, k, st);
  }

  lemma {:induction false} RunSound(n: nat, c: Config)
    requires Sound(c)
    ensures Sound(Run(Islisp, n, c))
  {
    if n > 0 {
      StepSound(c);
      RunSound(n - 1, Step(Islisp, c));
    }
  }

  /** None of the first `n` steps of eval.c leaks. */
  predicate NoLeak(n: nat, c: Config) {
    n == 0 || (!LeakingStep(c) && NoLeak(n - 1, Step(Implemented, c)))
  }

  /** Exits are stored nowhere in the first `n` steps of eval.c, and every block exit has its block. */
  ghost predicate AlwaysSound(n: nat, c: Config) {
    forall m: nat :: m <= n ==> Sound(Run(Implemented, m, c))
  }

  /** A run of eval.c keeps the discipline throughout exactly if none of its steps leaks. */
  lemma {:induction false} RunSoundIff(n: nat, c: Config)
    requires Sound(c)
    ensures AlwaysSound(n, c) <==> NoLeak(n, c)
  {
    if n > 0 {
      var next := Step(Implemented, c);
      StepSoundIff(c);
      if AlwaysSound(n, c) {
        assert Sound(Run(Implemented, 1, c)) && Run(Implemented, 1, c) == Run(Implemented, 0, next) == next;
        forall m: nat | m <= n - 1
          ensures Sound(Run(Implemented, m, next))
        {
          assert Run(Implemented, m + 1, c) == Run(Implemented, m, next);
        }
        RunSoundIff(n - 1, next);
      }
      if NoLeak(n, c) {
        RunSoundIff(n - 1, next);
        forall m: nat | m <= n
          ensures Sound(Run(Implemented, m, c))
        {
          if m > 0 { assert Run(Implemented, m, c) == Run(Implemented, m - 1, next); }
        }
      }
    }
  }

  /** A run without slips is a run of the ISLISP dialect. */
  lemma {:induction false} NoSlipAgrees(n: nat, c: Config)
    requires Sound(c) && NoSlip(n, c)
    ensures Run(Islisp, n, c) == Run(Implemented, n, c)
  {
    if n > 0 {
      ActSound(c);
      StepsAgreeIff(c);
      StepSound(c);
      NoSlipAgrees(n - 1, Step(Islisp, c));
    }
  }

  /** The evaluation of `form` finishes after a run without slips. */
  ghost predicate RunsCleanly(form: Val, env: nat, st: Store) {
    exists n: nat :: Halted(Run(Implemented, n, Load(form, env, st))) && NoSlip(n, Load(form, env, st))
  }

  /** The evaluation of `form` finishes after a run without leaks. */
  ghost predicate RunsTightly(form: Val, env: nat, st: Store) {
    exists n: nat :: Halted(Run(Implemented, n, Load(form, env, st))) && NoLeak(n, Load(form, env, st))
  }

  lemma LoadSound(form: Val, env: nat, st: Store)
    requires ExitFree(form) && StoreExitFree(st)
    ensures Sound(Load(form, env, st))
  {
    assert StackOk(Push(KBlock(Sym(STopLevel)), Bottom));
  }

  lemma TightResult(form: Val, env: nat, st: Store, v: Val, t: Store)
    requires ExitFree(form) && StoreExitFree(st)
    requires RunsTightly(form, env, st) && Computes(Implemented, form, env, st, v, t)
    ensures !v.BlockExit? && (ExitFree(v) || Travelling(v)) && StoreExitFree(t)
  {
    var c := Load(form, env, st);
    var n: nat :| Halted(Run(Implemented, n, c)) && NoLeak(n, c);
    var m: nat :| Run(Implemented, m, c) == Ret(v, Bottom, t);
    HaltIsUnique(Implemented, m, n, c);
    LoadSound(form, env, st);
    RunSoundIff(n, c);
    assert Sound(Run(Implemented, n, c));
  }

  lemma {:induction false} NoSlipNoLeak(n: nat, c: Config)
    requires NoSlip(n, c)
    ensures NoLeak(n, c)
  {
    if n > 0 {
      if LeakingStep(c) { LeakIsSlip(Act(c).val, Act(c).k); }
      NoSlipNoLeak(n - 1, Step(Implemented, c));
    }
  }
}
