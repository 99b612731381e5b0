/** When a form is aborted: its run jumps to the block %TOP-LEVEL with a block exit.

    The exit that a form ends in is observed by running it below a frame that holds every value,
    exits included: the tail of a template. The two runs go the same way until the form ends. */
module Aborts {
  import opened Lisp
  import opened Machine

  const TOP: Stack := Push(KBlock(Sym(STopLevel)), Bottom)
  const HOLD: Frame := KTail(Pairing(Constant(Nil), Constant(Nil)), Nil)
  const HELD: Stack := Push(HOLD, TOP)

  predicate Over(k: Stack) { k.Push? && (k == TOP || Over(k.rest)) }

  /** The same stack with the holding frame between the form and the top-level block. */
  function Open(k: Stack): (open: Stack)
    requires Over(k)
    ensures LiveBlocks(open) == LiveBlocks(k)
  {
    if k == TOP then HELD else Push(k.top, Open(k.rest))
  }

  function OpenConfig(c: Config): Config
    requires Over(c.k)
  {
    match c
    case Ev(e, env, k, st) => Ev(e, env, Open(k), st)
    case Ret(v, k, st) => Ret(v, Open(k), st)
  }

  function ActionStack(a: Action): Stack {
    match a
    case Go(c) => c.k
    case Give(_, k, _) => k
    case FormDone(_, _, k, _) => k
  }

  function OpenAction(a: Action): Action
    requires Over(ActionStack(a))
  {
    match a
    case Go(c) => Go(OpenConfig(c))
    case Give(v, k, st) => Give(v, Open(k), st)
    case FormDone(v, f, k, st) => FormDone(v, f, Open(k), st)
  }

  /** Exits come to rest only where eval.c goes on with them. */
  predicate Rests(c: Config) {
    c.Ret? && IsExit(c.val) ==> c.k.Bottom? || c.k.top.KExpansion? || Unguarded(c.k.top)
  }

  /** `b` is what `a` is, with the holding frame. */
  predicate Opens(a: Action, b: Action) {
    && Over(ActionStack(a)) && b == OpenAction(a)
    && match a
       case Go(c) => Rests(c)
       case Give(_, _, _) => true
       case FormDone(v, f, _, _) => f.KTagbody? && !IsExit(v)
  }

  // ---------------------------------------------------------------- steps below either stack

  lemma StartPrognOpens(body: Val, env: nat, k: Stack, st: Store)
    requires Over(k)
    ensures Opens(Go(StartProgn(body, env, k, st)), Go(StartProgn(body, env, Open(k), st)))
  {
  }

  lemma RunTagbodyOpens(forms: seq<Val>, pc: nat, env: nat, k: Stack, st: Store)
    requires Over(k)
    ensures Opens(Go(RunTagbody(forms, pc, env, k, st)), Go(RunTagbody(forms, pc, env, Open(k), st)))
  {
  }

  lemma {:induction false} StartTemplateOpens(t: Template, env: nat, k: Stack, st: Store)
    requires Over(k)
    ensures Opens(StartTemplate(t, env, k, st), StartTemplate(t, env, Open(k), st))
    decreases t
  {
    if t.Pairing? || t.Splicing? { StartTemplateOpens(t.head, env, Push(KHead(t, t.tail, env), k), st); }
  }

  lemma ClosureOpens(f: Val, args: Val, env: nat, k: Stack, st: Store)
    requires Over(k) && f.Closure?
    ensures Opens(Enter(f, args, env, k, st), Enter(f, args, env, Open(k), st))
  {
    StartPrognOpens(f.body, |st.envs|, k, BindParams(NewFrame(st, f.scope), f.params, args, |st.envs|).store);
  }

  lemma MacroexpandOpens(args: Val, env: nat, k: Stack, st: Store)
    requires Over(k)
    ensures Opens(Enter(Native(Macroexpand1), args, env, k, st), Enter(Native(Macroexpand1), args, env, Open(k), st))
  {
    var form := Car(args);
    if form.Cons? && form.car.Sym? && FunctionOf(st, form.car, env).Macro? {
      var m := FunctionOf(st, form.car, env);
      StartPrognOpens(m.body, |st.envs|, k, BindParams(NewFrame(st, m.scope), m.params, form.cdr, |st.envs|).store);
    }
  }

  lemma {:induction false} EnterOpens(f: Val, args: Val, env: nat, k: Stack, st: Store)
    requires Over(k)
    ensures Opens(Enter(f, args, env, k, st), Enter(f, args, env, Open(k), st))
    decreases Size(args)
  {
    if (f == Native(Funcall) || f == Native(Apply)) && args.Cons? {
      assert Size(Car(args.cdr)) <= Size(args.cdr);
      EnterOpens(args.car, if f == Native(Funcall) then args.cdr else Car(args.cdr), env, k, st);
    } else if f == Native(Macroexpand1) {
      MacroexpandOpens(args, env, k, st);
    } else if f.Closure? {
      ClosureOpens(f, args, env, k, st);
    } else {
      PrimitiveOpens(f, args, env, k, st);
    }
  }

  lemma PrimitiveOpens(f: Val, args: Val, env: nat, k: Stack, st: Store)
    requires Over(k) && !f.Closure? && f != Native(Macroexpand1)
    requires args.Cons? ==> f != Native(Funcall) && f != Native(Apply)
    ensures Opens(Enter(f, args, env, k, st), Enter(f, args, env, Open(k), st))
  {
  }

  lemma StartArgsOpens(f: Val, done: seq<Val>, rest: Val, env: nat, k: Stack, st: Store)
    requires Over(k)
    ensures Opens(StartArgs(f, done, rest, env, k, st), StartArgs(f, done, rest, env, Open(k), st))
  {
    if !rest.Cons? { EnterOpens(f, Listed(done, Nil, st).val, env, k, Listed(done, Nil, st).store); }
  }

  lemma CallOpens(op: Name, args: Val, env: nat, k: Stack, st: Store)
    requires Over(k)
    ensures Opens(Call(op, args, env, k, st), Call(op, args, env, Open(k), st))
  {
    var f := FunctionOf(st, Sym(op), env);
    if f.Macro? {
      var bound := BindParams(NewFrame(st, f.scope), f.params, args, |st.envs|).store;
      StartPrognOpens(f.body, |st.envs|, Push(KExpansion(env), k), bound);
    } else {
      StartArgsOpens(f, [], args, env, k, st);
    }
  }

  lemma LocalOpens(args: Val, env: nat, recursive: bool, k: Stack, st: Store)
    requires Over(k)
    ensures Opens(Local(args, env, recursive, k, st), Local(args, env, recursive, Open(k), st))
  {
  }

  lemma DefiningOpens(op: Name, args: Val, env: nat, k: Stack, st: Store)
    requires Over(k) && IsDefining(op)
    ensures Opens(Named(op, args, env, k, st), Named(op, args, env, Open(k), st))
  {
    if op.SFlet? || op.SLabels? {
      LocalOpens(args, env, op.SLabels?, k, st);
    } else if op.SDefvar? || op.SDefconstant? || op.SDefdynamic? || op.SDefglobal? {
      DefinitionOpens(op, args, env, k, st);
    }
  }

  lemma DefinitionOpens(op: Name, args: Val, env: nat, k: Stack, st: Store)
    requires Over(k) && (op.SDefvar? || op.SDefconstant? || op.SDefdynamic? || op.SDefglobal?)
    ensures Opens(Named(op, args, env, k, st), Named(op, args, env, Open(k), st))
  {
  }

  lemma ControlOpens(op: Name, args: Val, env: nat, k: Stack, st: Store)
    requires Over(k) && !IsDefining(op)
    ensures Opens(Named(op, args, env, k, st), Named(op, args, env, Open(k), st))
  {
    if op.SQuasiquote? || op.SProgn? || op.SBlock? || op.STagbody? {
      SequenceOpens(op, args, env, k, st);
    } else if !IsPushing(op) {
      CallOpens(op, args, env, k, st);
    }
  }

  lemma SequenceOpens(op: Name, args: Val, env: nat, k: Stack, st: Store)
    requires Over(k) && (op.SQuasiquote? || op.SProgn? || op.SBlock? || op.STagbody?)
    ensures Opens(Named(op, args, env, k, st), Named(op, args, env, Open(k), st))
  {
    if op.SQuasiquote? {
      StartTemplateOpens(Compile(Car(args), 0), env, k, st);
    } else if op.SProgn? {
      StartPrognOpens(args, env, k, st);
    } else if op.SBlock? {
      StartPrognOpens(Cdr(args), env, Push(KBlock(Car(args)), k), st);
    } else {
      RunTagbodyOpens(Elems(args), 0, env, k, st);
    }
  }

  /** The forms that only push a frame, or leave. */
  predicate IsPushing(op: Name) {
    op.SIf? || op.SReturnFrom? || op.SUnwindProtect? || op.SFunction? || op.SCatch? || op.SThrow?
  }

  lemma NamedOpens(op: Name, args: Val, env: nat, k: Stack, st: Store)
    requires Over(k)
    ensures Opens(Named(op, args, env, k, st), Named(op, args, env, Open(k), st))
  {
    if IsDefining(op) { DefiningOpens(op, args, env, k, st); } else { ControlOpens(op, args, env, k, st); }
  }

  lemma ResumeOpens(v: Val, f: Frame, k: Stack, st: Store)
    requires Over(k) && (IsExit(v) ==> f.KExpansion? || Unguarded(f))
    ensures Opens(Resume(v, f, k, st), Resume(v, f, Open(k), st))
  {
    if f.KProgn? || f.KProtect? || f.KCatchTag? {
      ResumeBodyOpens(v, f, k, st);
    } else if f.KOperator? {
      StartArgsOpens(v, [], f.args, f.env, k, st);
    } else if f.KArg? {
      StartArgsOpens(f.f, f.done + [v], f.rest, f.env, k, st);
    } else if f.KHead? {
      StartTemplateOpens(f.tail, f.env, Push(KTail(f.t, v), k), st);
    }
  }

  lemma ResumeBodyOpens(v: Val, f: Frame, k: Stack, st: Store)
    requires Over(k) && (f.KProgn? || f.KProtect? || f.KCatchTag?)
    ensures Opens(Resume(v, f, k, st), Resume(v, f, Open(k), st))
  {
    if f.KProgn? {
      StartPrognOpens(f.rest, f.env, k, st);
    } else if f.KProtect? {
      StartPrognOpens(f.cleanup, f.env, Push(KCleanup(v), k), st);
    } else {
      StartPrognOpens(f.body, f.env, Push(KCatch(v), k), st);
    }
  }

  lemma ActOpens(c: Config)
    requires Over(c.k) && Rests(c) && (c.Ret? ==> c.k != TOP)
    ensures Opens(Act(c), Act(OpenConfig(c)))
  {
    match c
    case Ev(e, env, k, st) => if e.Cons? && e.car.Sym? { NamedOpens(e.car.name, e.cdr, env, k, st); }
    case Ret(v, k, st) => ResumeOpens(v, k.top, k.rest, st);
  }

  // ---------------------------------------------------------------- jumps below either stack

  /** The exit with which a jump comes to the top-level block, if it gets that far. */
  function Landing(x: Val, k: Stack): Option<Val>
    requires IsExit(x)
    decreases k
  {
    if k == TOP then Some(x)
    else
      match k
      case Bottom => None
      case Push(f, rest) =>
        if Unguarded(f) || f.KExpansion? || f.KProtect? then None
        else if f.KBlock? && Target(x) == f.name then
          if IsExit(Payload(x)) then Landing(Payload(x), rest) else None
        else if f.KCatch? && x.CatchExit? && x.tag == f.tag then
          if IsExit(x.value) then Landing(x.value, rest) else None
        else if f.KTagbody? && x.GoExit? && Label(f.forms, x.tag).Some? then None
        else if f.KCleanup? && IsExit(f.result) then Landing(Raise(Control, Nil), rest)
        else Landing(x, rest)
  }

  lemma {:induction false} JumpOpens(x: Val, k: Stack, st: Store)
    requires Over(k) && IsExit(x)
    ensures match Landing(x, k)
            case None => Opens(Go(Jump(D, x, k, st)), Go(Jump(D, x, Open(k), st)))
            case Some(y) =>
              && IsExit(y) && Jump(D, x, Open(k), st) == Ret(y, HELD, st)
              && Jump(D, x, k, st) == Jump(D, y, TOP, st)
    decreases k
  {
    if k != TOP {
      var f, rest := k.top, k.rest;
      Lands(x, f, rest, st);
      Lands(x, f, Open(rest), st);
      if f.KProtect? {
        StartPrognOpens(f.cleanup, f.env, Push(KCleanup(x), rest), st);
      } else if f.KBlock? && Target(x) == f.name {
        if IsExit(Payload(x)) { JumpOpens(Payload(x), rest, st); }
      } else if f.KCatch? && x.CatchExit? && x.tag == f.tag {
        if IsExit(x.value) { JumpOpens(x.value, rest, st); }
      } else if f.KTagbody? && x.GoExit? && Label(f.forms, x.tag).Some? {
        RunTagbodyOpens(f.forms, Label(f.forms, x.tag).value + 1, f.env, rest, st);
      } else if f.KCleanup? && IsExit(f.result) {
        JumpOpens(Raise(Control, Nil), rest, st);
      } else if !Unguarded(f) && !f.KExpansion? {
        JumpOpens(x, rest, st);
      }
    }
  }

  // ---------------------------------------------------------------- where a run ends

  /** The exit that this step takes to the top-level block. */
  function Leaving(c: Config): Option<Val> {
    match Act(c)
    case Give(x, k, _) => if IsExit(x) then Landing(x, k) else None
    case _ => None
  }

  predicate ToTopLevel(x: Val) { x.BlockExit? && x.dest == Sym(STopLevel) }

  /** This step jumps to the block %TOP-LEVEL with a block exit. */
  predicate Aborts(c: Config) { Leaving(c).Some? && ToTopLevel(Leaving(c).value) }

  lemma StepOpens(c: Config) returns (leaving: Option<Val>, st: Store)
    requires Over(c.k) && Rests(c) && (c.Ret? ==> c.k != TOP)
    ensures leaving == Leaving(c)
    ensures leaving.None? ==> Opens(Go(Step(D, c)), Go(Step(D, OpenConfig(c))))
    ensures leaving.Some? ==>
              Step(D, OpenConfig(c)) == Ret(leaving.value, HELD, st) && Halted(Step(D, c))
  {
    ActOpens(c);
    leaving, st := Leaving(c), c.st;
    match Act(c)
    case Go(_) =>
    case Give(v, k, t) =>
      st := t;
      if IsExit(v) {
        JumpOpens(v, k, t);
        assert Step(D, c) == Jump(D, v, k, t) && Step(D, OpenConfig(c)) == Jump(D, v, Open(k), t);
        if leaving.Some? { TopHalts(leaving.value, t); }
      }
    case FormDone(v, f, k, t) => RunTagbodyOpens(f.forms, f.pc, f.env, k, t);
  }

  lemma TopHalts(x: Val, st: Store)
    requires IsExit(x)
    ensures Halted(Jump(D, x, TOP, st))
  {
    if IsExit(Payload(x)) { assert Jump(D, Payload(x), Bottom, st) == Ret(Payload(x), Bottom, st); }
  }

  ghost predicate EverAborts(c: Config) { exists i: nat :: Aborts(Run(D, i, c)) }

  lemma EverStep(c: Config)
    ensures EverAborts(c) <==> Aborts(c) || EverAborts(Step(D, c))
  {
    if EverAborts(c) {
      var i: nat :| Aborts(Run(D, i, c));
      if i > 0 { assert Run(D, i, c) == Run(D, i - 1, Step(D, c)); }
    }
    if Aborts(c) { assert Run(D, 0, c) == c; }
    if EverAborts(Step(D, c)) {
      var i: nat :| Aborts(Run(D, i, Step(D, c)));
      assert Run(D, i + 1, c) == Run(D, i, Step(D, c));
    }
  }

  lemma HaltedNeverAborts(c: Config)
    requires Halted(c)
    ensures !EverAborts(c)
  {
    forall i: nat ensures !Aborts(Run(D, i, c)) { HaltedStays(D, i, c); }
  }

  /** A value or exit held at the end of the form halts the run in a pair. */
  lemma HeldHalts(n: nat, v: Val, st: Store)
    requires Halted(Run(D, n, Ret(v, HELD, st)))
    ensures Run(D, n, Ret(v, HELD, st)).val.Cons? && Run(D, n, Ret(v, HELD, st)).val.cdr == v
  {
    var c := Ret(v, HELD, st);
    var pair := MkCons(st, Nil, v);
    assert Step(D, c) == Ret(pair.val, TOP, pair.store);
    assert Step(D, Step(D, c)) == Ret(pair.val, Bottom, pair.store);
    assert Run(D, 2, c) == Run(D, 1, Step(D, c)) == Run(D, 0, Step(D, Step(D, c)));
    HaltIsUnique(D, n, 2, c);
  }

  lemma ValueNeverAborts(v: Val, st: Store)
    requires !IsExit(v)
    ensures !EverAborts(Ret(v, TOP, st))
  {
    var c := Ret(v, TOP, st);
    assert Step(D, c) == Ret(v, Bottom, st);
    EverStep(c);
    HaltedNeverAborts(Step(D, c));
  }

  lemma OneStepLess(n: nat, c: Config)
    requires Halted(Run(D, n, c)) && !Halted(c)
    ensures n > 0 && Run(D, n, c) == Run(D, n - 1, Step(D, c))
  {
  }

  /** A form aborts exactly if, run below the holding frame, it leaves a block exit to %TOP-LEVEL
      there. */
  lemma {:induction false} HeldExit(n: nat, c: Config)
    requires Over(c.k) && Rests(c) && Halted(Run(D, n, OpenConfig(c)))
    ensures var held := Run(D, n, OpenConfig(c)).val;
            held.Cons? && (EverAborts(c) <==> ToTopLevel(held.cdr))
    decreases n
  {
    if c.Ret? && c.k == TOP {
      HeldHalts(n, c.val, c.st);
      ValueNeverAborts(c.val, c.st);
    } else {
      var leaving, st := StepOpens(c);
      EverStep(c);
      OneStepLess(n, OpenConfig(c));
      if leaving.None? {
        HeldExit(n - 1, Step(D, c));
      } else {
        HeldHalts(n - 1, leaving.value, st);
        HaltedNeverAborts(Step(D, c));
      }
    }
  }

  /** A jump that lands there with such an exit ends the run with what the exit carries. */
  lemma {:induction false} LandingEnds(x: Val, k: Stack, st: Store)
    requires IsExit(x) && Landing(x, k).Some? && ToTopLevel(Landing(x, k).value)
    ensures Jump(D, x, k, st) == Ret(Landing(x, k).value.value, Bottom, st)
    decreases k
  {
    if k == TOP {
      if IsExit(x.value) { assert Jump(D, x.value, Bottom, st) == Ret(x.value, Bottom, st); }
    } else {
      var f, rest := k.top, k.rest;
      if f.KBlock? && Target(x) == f.name {
        LandingEnds(Payload(x), rest, st);
      } else if f.KCatch? && x.CatchExit? && x.tag == f.tag {
        LandingEnds(x.value, rest, st);
      } else if f.KCleanup? && IsExit(f.result) {
        LandingEnds(Raise(Control, Nil), rest, st);
      } else {
        LandingEnds(x, rest, st);
      }
    }
  }
}
