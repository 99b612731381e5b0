/** Passing exits as values is the same as jumping: the evaluator of eval.c and the machine
    with a continuation stack compute the same results from the same stores, for every
    program. The dialect is the one that has the evaluator's four narrow places. */
module Adequacy {
  import opened Lisp
  import opened Eval
  import opened Machine

  /** After `n` steps from `c` the machine hands the outcome to stack `k`; if the evaluator
      ran out of fuel, the machine is still running after at least `fuel` steps. */
  predicate Simulates(n: nat, c: Config, o: Outcome, k: Stack, fuel: nat) {
    match o
    case Done(v, t) => Run(D, n, c) == Deliver(D, v, k, t.store)
    case OutOfFuel => n >= fuel && !Halted(Run(D, n, c))
  }

  lemma Prefixed(m: nat, c: Config, n: nat, o: Outcome, k: Stack, fuel: nat)
    requires Simulates(n, Run(D, m, c), o, k, fuel)
    ensures Simulates(m + n, c, o, k, fuel + m) || o.Done?
    ensures Simulates(m + n, c, o, k, fuel)
  {
    RunAdd(D, m, n, c);
  }

  /** A value reached frame `f`; what follows is simulated in `n` steps. */
  lemma Resumed(m: nat, c: Config, v: Val, f: Frame, rest: Stack, st: Store, n: nat, o: Outcome, k: Stack, fuel: nat)
    requires Run(D, m, c) == Ret(v, Push(f, rest), st)
    requires Simulates(n, Perform(D, Resume(v, f, rest, st)), o, k, fuel)
    ensures Simulates(m + 1 + n, c, o, k, fuel)
  {
    RunAdd(D, m, 1 + n, c);
    RunAdd(D, 1, n, Run(D, m, c));
    assert Run(D, 1, Run(D, m, c)) == Run(D, 0, Step(D, Run(D, m, c)));
  }

  /** Frames that let every exit through. */
  predicate Passing(f: Frame) {
    !(f.KBlock? || f.KCatch? || f.KTagbody? || f.KProtect? || f.KCleanup? || f.KExpansion? || Unguarded(f))
  }

  /** An evaluation that stops is not resumed by a frame that lets exits through. */
  lemma Passes(m: nat, c: Config, r: Outcome, f: Frame, k: Stack, fuel: nat)
    requires Simulates(m, c, r, Push(f, k), fuel) && Passing(f) && Stops(r)
    ensures Simulates(m, c, r, k, fuel)
  {
    if r.Done? { Lands(r.val, f, k, r.state.store); }
  }

  /** One that gives a value is resumed by the frame. */
  lemma Continues(m: nat, c: Config, r: Outcome, f: Frame, k: Stack, n: nat, o: Outcome, fuel: nat)
    requires Simulates(m, c, r, Push(f, k), fuel) && !Stops(r)
    requires Simulates(n, Perform(D, Resume(r.val, f, k, r.state.store)), o, k, fuel)
    ensures Simulates(m + 1 + n, c, o, k, fuel)
  {
    Resumed(m, c, r.val, f, k, r.state.store, n, o, k, fuel);
  }

  lemma SimEval(fuel: nat, exp: Val, env: nat, s: State, k: Stack) returns (n: nat)
    requires s.live == LiveBlocks(k)
    ensures Simulates(n, Ev(exp, env, k, s.store), OsEval(fuel, exp, env, s), k, fuel)
    ensures OsEval(fuel, exp, env, s).Done? ==> n >= 1
    decreases fuel, 0, Nil
  {
    var c := Ev(exp, env, k, s.store);
    if fuel == 0 {
      n := 0;
    } else {
      var m := 0;
      if exp.Cons? {
        if exp.car.Sym? {
          m := SimNamed(fuel - 1, exp.car.name, exp.cdr, env, s, k);
        } else {
          m := SimForm(fuel - 1, exp.car, exp.cdr, env, s, k);
        }
      }
      n := 1 + m;
      assert Run(D, 1, c) == Run(D, 0, Step(D, c));
      Prefixed(1, c, m, OsEval(fuel, exp, env, s), k, fuel - 1);
    }
  }

  lemma SimNamed(fuel: nat, op: Name, args: Val, env: nat, s: State, k: Stack) returns (n: nat)
    requires s.live == LiveBlocks(k)
    ensures Simulates(n, Perform(D, Named(op, args, env, k, s.store)), EvalNamed(fuel, op, args, env, s), k, fuel)
    decreases fuel, 10, Nil
  {
    if IsDefining(op) {
      n := SimDefining(fuel, op, args, env, s, k);
    } else if op.SBlock? || op.SReturnFrom? || op.SUnwindProtect? || op.SCatch? || op.SThrow? || op.STagbody? {
      n := SimControl(fuel, op, args, env, s, k);
    } else if op.SIf? {
      n := SimIf(fuel, args, env, s, k);
    } else if op.SProgn? {
      n := SimProgn(fuel, args, env, s, k);
    } else if op.SQuasiquote? {
      n := SimTemplate(fuel, Car(args), env, 0, s, k);
    } else if op.SFunction? {
      n := SimFunction(fuel, args, env, s, k);
    } else {
      n := SimCall(fuel, op, args, env, s, k);
    }
  }

  /** The forms that take part in non-local exits. */
  lemma SimControl(fuel: nat, op: Name, args: Val, env: nat, s: State, k: Stack) returns (n: nat)
    requires s.live == LiveBlocks(k)
    requires op.SBlock? || op.SReturnFrom? || op.SUnwindProtect? || op.SCatch? || op.SThrow? || op.STagbody?
    ensures Simulates(n, Perform(D, Named(op, args, env, k, s.store)), EvalNamed(fuel, op, args, env, s), k, fuel)
    decreases fuel, 8, Nil
  {
    match op
    case SBlock => n := SimBlock(fuel, args, env, s, k);
    case SReturnFrom => n := SimReturnFrom(fuel, args, env, s, k);
    case SUnwindProtect => n := SimUnwindProtect(fuel, args, env, s, k);
    case SCatch => n := SimCatch(fuel, args, env, s, k);
    case SThrow => n := SimThrow(fuel, args, env, s, k);
    case STagbody =>
      StandsAt(args, Elems(args), 0);
      n := SimTagbody(fuel, args, Elems(args), args, 0, env, s, k);
  }

  lemma SimDefining(fuel: nat, op: Name, args: Val, env: nat, s: State, k: Stack) returns (n: nat)
    requires s.live == LiveBlocks(k) && IsDefining(op)
    ensures Simulates(n, Perform(D, Named(op, args, env, k, s.store)), EvalNamed(fuel, op, args, env, s), k, fuel)
    decreases fuel, 8, Nil
  {
    if op.SSetq? {
      n := SimSetq(fuel, args, env, s, k);
    } else if op.SFlet? || op.SLabels? {
      n := SimLocalFunctions(fuel, args, env, op.SLabels?, s, k);
    } else if IsDefinition(op) {
      n := SimDefinition(fuel, op, args, env, s, k);
    } else {
      n := 0;
      SimAtOnce(fuel, op, args, env, s, k);
    }
  }

  /** The forms that evaluate nothing. */
  lemma SimAtOnce(fuel: nat, op: Name, args: Val, env: nat, s: State, k: Stack)
    requires s.live == LiveBlocks(k) && IsDefining(op)
    requires !op.SSetq? && !op.SFlet? && !op.SLabels? && !IsDefinition(op)
    ensures Simulates(0, Perform(D, Named(op, args, env, k, s.store)), EvalNamed(fuel, op, args, env, s), k, fuel)
  {
  }

  predicate IsDefinition(op: Name) { op.SDefvar? || op.SDefconstant? || op.SDefdynamic? || op.SDefglobal? }

  lemma SimDefinition(fuel: nat, op: Name, args: Val, env: nat, s: State, k: Stack) returns (n: nat)
    requires s.live == LiveBlocks(k) && IsDefinition(op)
    ensures Simulates(n, Perform(D, Named(op, args, env, k, s.store)), EvalNamed(fuel, op, args, env, s), k, fuel)
    decreases fuel, 7, Nil
  {
    if op.SDefvar? {
      n := SimDefvar(fuel, args, env, s, k);
    } else if op.SDefconstant? {
      n := SimDefconstant(fuel, args, env, s, k);
    } else if op.SDefdynamic? {
      n := SimDefdynamic(fuel, args, env, s, k);
    } else {
      n := SimDefglobal(fuel, args, env, s, k);
    }
  }

  lemma SimCall(fuel: nat, op: Name, args: Val, env: nat, s: State, k: Stack) returns (n: nat)
    requires s.live == LiveBlocks(k)
    ensures Simulates(n, Perform(D, Call(op, args, env, k, s.store)), EvalCall(fuel, op, args, env, s), k, fuel)
    decreases fuel, 8, Nil
  {
    var f := FunctionOf(s.store, Sym(op), env);
    if f.Macro? {
      n := SimExpansion(fuel, f, args, env, s, k);
    } else {
      n := SimFunctionCall(fuel, op, args, env, s, k);
    }
  }

  lemma SimFunctionCall(fuel: nat, op: Name, args: Val, env: nat, s: State, k: Stack) returns (n: nat)
    requires s.live == LiveBlocks(k) && !FunctionOf(s.store, Sym(op), env).Macro?
    ensures Simulates(n, Perform(D, Call(op, args, env, k, s.store)), EvalForm(fuel, Sym(op), args, env, s), k, fuel)
    decreases fuel, 7, Nil
  {
    var f := FunctionOf(s.store, Sym(op), env);
    if f == Nil {
      n := 0;
    } else {
      n := SimCallWith(fuel, f, args, env, s, k);
    }
  }

  /** A macro call: whatever the expander yields is evaluated; an exit evaluates to itself. */
  lemma SimExpansion(fuel: nat, f: Val, args: Val, env: nat, s: State, k: Stack) returns (n: nat)
    requires s.live == LiveBlocks(k) && f.Macro?
    ensures var expanded := ApplyMacro(fuel, f, args, s);
            Simulates(n, EnterMacro(f, args, Push(KExpansion(env), k), s.store),
                      if expanded.OutOfFuel? then OutOfFuel
                          else OsEval(fuel, expanded.val, env, expanded.state), k, fuel)
    decreases fuel, 7, Nil
  {
    var frame := KExpansion(env);
    var c := EnterMacro(f, args, Push(frame, k), s.store);
    n := SimMacro(fuel, f, args, s, Push(frame, k));
    var r := ApplyMacro(fuel, f, args, s);
    if r.Done? {
      Lands(r.val, frame, k, r.state.store);
      var m := SimEval(fuel, r.val, env, r.state, k);
      Resumed(n, c, r.val, frame, k, r.state.store, m, OsEval(fuel, r.val, env, r.state), k, fuel);
      n := n + 1 + m;
    }
  }

  /** Evaluating the arguments and then calling `f`. */
  lemma SimCallWith(fuel: nat, f: Val, args: Val, env: nat, s: State, k: Stack) returns (n: nat)
    requires s.live == LiveBlocks(k)
    ensures var argv := EvalArgs(fuel, args, env, s);
            Simulates(n, Perform(D, StartArgs(f, [], args, env, k, s.store)),
                      if Stops(argv) then argv else ApplyFunction(fuel, f, argv.val, env, argv.state), k, fuel)
    decreases fuel, 4, Nil
  {
    var argv := EvalArgs(fuel, args, env, s);
    var m := SimArgs(fuel, f, [], args, env, s, k);
    n := m;
    if !Stops(argv) {
      var m2 := SimApply(fuel, f, argv.val, env, argv.state, k);
      var c := Perform(D, StartArgs(f, [], args, env, k, s.store));
      Prefixed(m, c, m2, ApplyFunction(fuel, f, argv.val, env, argv.state), k, fuel);
      n := m + m2;
    }
  }

  /** The argument list of eval_args is the machine's list of finished values. */
  lemma SimArgs(fuel: nat, f: Val, done: seq<Val>, args: Val, env: nat, s: State, k: Stack) returns (n: nat)
    requires s.live == LiveBlocks(k)
    ensures var argv := EvalArgs(fuel, args, env, s);
            var c := Perform(D, StartArgs(f, done, args, env, k, s.store));
            if Stops(argv) then Simulates(n, c, argv, k, fuel)
            else var l := Listed(done, argv.val, argv.state.store);
                 Run(D, n, c) == Perform(D, Enter(f, l.val, env, k, l.store))
    decreases fuel, 1, args
  {
    var c := Perform(D, StartArgs(f, done, args, env, k, s.store));
    if !args.Cons? {
      n := 0;
    } else {
      var frame := KArg(f, done, args.cdr, env);
      var m := SimEval(fuel, args.car, env, s, Push(frame, k));
      var head := OsEval(fuel, args.car, env, s);
      n := m;
      if head.Done? { Lands(head.val, frame, k, head.state.store); }
      if !Stops(head) {
        var m2 := SimArgs(fuel, f, done + [head.val], args.cdr, env, head.state, k);
        var tail := EvalArgs(fuel, args.cdr, env, head.state);
        assert Step(D, Run(D, m, c)) == Perform(D, StartArgs(f, done + [head.val], args.cdr, env, k, head.state.store));
        n := m + 1 + m2;
        RunAdd(D, m, 1 + m2, c);
        RunAdd(D, 1, m2, Run(D, m, c));
        assert Run(D, 1, Run(D, m, c)) == Run(D, 0, Step(D, Run(D, m, c)));
        if !Stops(tail) {
          ListedSnoc(done, head.val, tail.val, tail.state.store);
        }
      }
    }
  }

  lemma {:induction false} ListedSnoc(done: seq<Val>, v: Val, tail: Val, st: Store)
    ensures var m := MkCons(st, v, tail); Listed(done + [v], tail, st) == Listed(done, m.val, m.store)
  {
    if done == [] {
      assert [v][1..] == [];
      assert done + [v] == [v];
    } else {
      assert (done + [v])[1..] == done[1..] + [v];
      ListedSnoc(done[1..], v, tail, st);
    }
  }

  lemma SimProgn(fuel: nat, body: Val, env: nat, s: State, k: Stack) returns (n: nat)
    requires s.live == LiveBlocks(k)
    ensures Simulates(n, StartProgn(body, env, k, s.store), EvalProgn(fuel, body, env, s), k, fuel)
    decreases fuel, 1, body
  {
    if !body.Cons? {
      n := 0;
    } else if !body.cdr.Cons? {
      n := SimEval(fuel, body.car, env, s, k);
    } else {
      var frame := KProgn(body.cdr, env);
      n := SimEval(fuel, body.car, env, s, Push(frame, k));
      var r := OsEval(fuel, body.car, env, s);
      var c := StartProgn(body, env, k, s.store);
      if Stops(r) {
        Passes(n, c, r, frame, k, fuel);
      } else {
        var m := SimProgn(fuel, body.cdr, env, r.state, k);
        Continues(n, c, r, frame, k, m, EvalProgn(fuel, body.cdr, env, r.state), fuel);
        n := n + 1 + m;
      }
    }
  }

  lemma SimApply(fuel: nat, f: Val, args: Val, env: nat, s: State, k: Stack) returns (n: nat)
    requires s.live == LiveBlocks(k)
    ensures Simulates(n, Perform(D, Enter(f, args, env, k, s.store)), ApplyFunction(fuel, f, args, env, s), k, fuel)
    decreases fuel, 3, Size(args)
  {
    if f == Native(Funcall) && args.Cons? {
      n := SimApply(fuel, args.car, args.cdr, env, s, k);
    } else if f == Native(Apply) && args.Cons? {
      assert Size(Car(args.cdr)) <= Size(args.cdr);
      n := SimApply(fuel, args.car, Car(args.cdr), env, s, k);
    } else if f == Native(Macroexpand1) {
      n := SimMacroexpand(fuel, args, env, s, k);
    } else if f.Closure? {
      n := SimClosure(fuel, f, args, env, s, k);
    } else {
      n := 0;
      SimPrimitive(fuel, f, args, env, s, k);
    }
  }

  lemma SimClosure(fuel: nat, f: Val, args: Val, env: nat, s: State, k: Stack) returns (n: nat)
    requires s.live == LiveBlocks(k) && f.Closure?
    ensures Simulates(n, Perform(D, Enter(f, args, env, k, s.store)), ApplyFunction(fuel, f, args, env, s), k, fuel)
    decreases fuel, 2, Nil
  {
    n := 0;
    var b := BindParams(NewFrame(s.store, f.scope), f.params, args, |s.store.envs|);
    if b.ok { n := SimProgn(fuel, f.body, |s.store.envs|, s.(store := b.store), k); }
  }

  /** Calls that evaluate nothing. */
  lemma SimPrimitive(fuel: nat, f: Val, args: Val, env: nat, s: State, k: Stack)
    requires !f.Closure? && f != Native(Macroexpand1) && (args.Cons? ==> f != Native(Funcall) && f != Native(Apply))
    ensures Simulates(0, Perform(D, Enter(f, args, env, k, s.store)), ApplyFunction(fuel, f, args, env, s), k, fuel)
  {
  }

  lemma SimMacroexpand(fuel: nat, args: Val, env: nat, s: State, k: Stack) returns (n: nat)
    requires s.live == LiveBlocks(k)
    ensures Simulates(n, Perform(D, Enter(Native(Macroexpand1), args, env, k, s.store)),
                      Macroexpand(fuel, Car(args), env, s), k, fuel)
    decreases fuel, 2, Cons(0, Nil, Nil)
  {
    n := 0;
    var form := Car(args);
    if form.Cons? && form.car.Sym? && FunctionOf(s.store, form.car, env).Macro? {
      n := SimMacro(fuel, FunctionOf(s.store, form.car, env), form.cdr, s, k);
    }
  }

  lemma SimMacro(fuel: nat, m: Val, args: Val, s: State, k: Stack) returns (n: nat)
    requires m.Macro?
    requires s.live == LiveBlocks(k)
    ensures Simulates(n, EnterMacro(m, args, k, s.store), ApplyMacro(fuel, m, args, s), k, fuel)
    decreases fuel, 2, Nil
  {
    var b := BindParams(NewFrame(s.store, m.scope), m.params, args, |s.store.envs|);
    n := SimProgn(fuel, m.body, |s.store.envs|, s.(store := b.store), k);
  }

  /** A compound operator: its value goes on as the function, whatever it is. */
  lemma SimForm(fuel: nat, op: Val, args: Val, env: nat, s: State, k: Stack) returns (n: nat)
    requires s.live == LiveBlocks(k) && !op.Sym?
    ensures Simulates(n, Ev(op, env, Push(KOperator(args, env), k), s.store), EvalForm(fuel, op, args, env, s), k, fuel)
    decreases fuel, 7, Nil
  {
    var frame := KOperator(args, env);
    var c := Ev(op, env, Push(frame, k), s.store);
    n := SimEval(fuel, op, env, s, Push(frame, k));
    var f := OsEval(fuel, op, env, s);
    if f.Done? {
      Lands(f.val, frame, k, f.state.store);
      var m := 0;
      if f.val != Nil {
        m := SimCallWith(fuel, f.val, args, env, f.state, k);
      }
      Resumed(n, c, f.val, frame, k, f.state.store, m, EvalForm(fuel, op, args, env, s), k, fuel);
      n := n + 1 + m;
    }
  }

  lemma SimIf(fuel: nat, args: Val, env: nat, s: State, k: Stack) returns (n: nat)
    requires s.live == LiveBlocks(k)
    ensures Simulates(n, Perform(D, Named(SIf, args, env, k, s.store)), EvalIf(fuel, args, env, s), k, fuel)
    decreases fuel, 6, Nil
  {
    var frame := KIf(Car(Cdr(args)), Cdr(Cdr(args)), env);
    n := SimEval(fuel, Car(args), env, s, Push(frame, k));
    var test := OsEval(fuel, Car(args), env, s);
    var c := Ev(Car(args), env, Push(frame, k), s.store);
    if Stops(test) {
      Passes(n, c, test, frame, k, fuel);
    } else {
      var m := 0;
      if test.val != Nil {
        m := SimEval(fuel, Car(Cdr(args)), env, test.state, k);
      } else if Cdr(Cdr(args)) != Nil {
        m := SimEval(fuel, Car(Cdr(Cdr(args))), env, test.state, k);
      }
      Continues(n, c, test, frame, k, m, EvalIf(fuel, args, env, s), fuel);
      n := n + 1 + m;
    }
  }

  /** A form that evaluates one subform and then finishes at once. */
  lemma SimLast(fuel: nat, exp: Val, env: nat, s: State, f: Frame, o: Outcome, k: Stack) returns (n: nat)
    requires s.live == LiveBlocks(k)
    requires Passing(f)
    requires var r := OsEval(fuel, exp, env, s);
             if Stops(r) then o == r
             else o.Done? && Perform(D, Resume(r.val, f, k, r.state.store)) == Deliver(D, o.val, k, o.state.store)
    ensures Simulates(n, Ev(exp, env, Push(f, k), s.store), o, k, fuel)
    decreases fuel, 5, Nil
  {
    n := SimEval(fuel, exp, env, s, Push(f, k));
    var r := OsEval(fuel, exp, env, s);
    if Stops(r) {
      Passes(n, Ev(exp, env, Push(f, k), s.store), r, f, k, fuel);
    } else {
      Continues(n, Ev(exp, env, Push(f, k), s.store), r, f, k, 0, o, fuel);
      n := n + 1 + 0;
    }
  }

  lemma SimFunction(fuel: nat, args: Val, env: nat, s: State, k: Stack) returns (n: nat)
    requires s.live == LiveBlocks(k)
    ensures Simulates(n, Perform(D, Named(SFunction, args, env, k, s.store)), EvalFunction(fuel, args, env, s), k, fuel)
    decreases fuel, 6, Nil
  {
    n := 0;
    if !Car(args).Sym? { n := SimEval(fuel, Car(args), env, s, k); }
  }

  lemma SimSetq(fuel: nat, args: Val, env: nat, s: State, k: Stack) returns (n: nat)
    requires s.live == LiveBlocks(k)
    ensures Simulates(n, Perform(D, Named(SSetq, args, env, k, s.store)), EvalSetq(fuel, args, env, s), k, fuel)
    decreases fuel, 6, Nil
  {
    n := 0;
    if !IsConstant(s.store.envs, Car(args), env) {
      n := SimLast(fuel, Car(Cdr(args)), env, s, KSetq(Car(args), env), EvalSetq(fuel, args, env, s), k);
    }
  }

  lemma SimDefvar(fuel: nat, args: Val, env: nat, s: State, k: Stack) returns (n: nat)
    requires s.live == LiveBlocks(k)
    ensures Simulates(n, Perform(D, Named(SDefvar, args, env, k, s.store)), EvalDefvar(fuel, args, env, s), k, fuel)
    decreases fuel, 6, Nil
  {
    var owner := Owner(s.store.envs, env);
    if (owner < |s.store.envs| && Car(args) in s.store.envs[owner].vars) || Cdr(args) == Nil {
      n := 0;
    } else {
      DefvarValue(fuel, args, env, s, k);
      n := SimLast(fuel, Car(Cdr(args)), env, s, KDefine(Defvar, Car(args), owner), EvalDefvar(fuel, args, env, s), k);
    }
  }

  lemma DefvarValue(fuel: nat, args: Val, env: nat, s: State, k: Stack)
    requires var owner := Owner(s.store.envs, env);
             !(owner < |s.store.envs| && Car(args) in s.store.envs[owner].vars) && Cdr(args) != Nil
    ensures var r, o := OsEval(fuel, Car(Cdr(args)), env, s), EvalDefvar(fuel, args, env, s);
            var f := KDefine(Defvar, Car(args), Owner(s.store.envs, env));
            if Stops(r) then o == r
            else o.Done? && Perform(D, Resume(r.val, f, k, r.state.store)) == Deliver(D, o.val, k, o.state.store)
  {
  }

  lemma SimDefconstant(fuel: nat, args: Val, env: nat, s: State, k: Stack) returns (n: nat)
    requires s.live == LiveBlocks(k)
    ensures Simulates(n, Perform(D, Named(SDefconstant, args, env, k, s.store)), EvalDefconstant(fuel, args, env, s),
            k, fuel)
    decreases fuel, 6, Nil
  {
    n := SimLast(fuel, Car(Cdr(args)), env, s, KDefine(Defconstant, Car(args), Owner(s.store.envs, env)),
                 EvalDefconstant(fuel, args, env, s), k);
  }

  lemma SimDefdynamic(fuel: nat, args: Val, env: nat, s: State, k: Stack) returns (n: nat)
    requires s.live == LiveBlocks(k)
    ensures Simulates(n, Perform(D, Named(SDefdynamic, args, env, k, s.store)), EvalDefdynamic(fuel, args, env, s), k,
            fuel)
    decreases fuel, 6, Nil
  {
    n := SimLast(fuel, Car(Cdr(args)), env, s, KDefine(Defdynamic, Car(args), GLOBAL),
                 EvalDefdynamic(fuel, args, env, s), k);
  }

  lemma SimDefglobal(fuel: nat, args: Val, env: nat, s: State, k: Stack) returns (n: nat)
    requires s.live == LiveBlocks(k)
    ensures Simulates(n, Perform(D, Named(SDefglobal, args, env, k, s.store)), EvalDefglobal(fuel, args, env, s), k,
            fuel)
    decreases fuel, 6, Nil
  {
    n := SimLast(fuel, Car(Cdr(args)), env, s, KDefine(Defglobal, Car(args), Owner(s.store.envs, env)),
                 EvalDefglobal(fuel, args, env, s), k);
  }

  lemma SimLocalFunctions(fuel: nat, args: Val, env: nat, recursive: bool, s: State, k: Stack) returns (n: nat)
    requires s.live == LiveBlocks(k)
    ensures Simulates(n, Perform(D, Local(args, env, recursive, k, s.store)),
                      EvalLocalFunctions(fuel, args, env, recursive, s), k, fuel)
    decreases fuel, 6, Nil
  {
    var inner := |s.store.envs|;
    var bound := BindFunctions(NewFrame(s.store, env), Car(args), if recursive then inner else env, inner);
    n := SimProgn(fuel, Cdr(args), inner, s.(store := bound), k);
  }

  /** qq_expand computes what the template's cons/append program computes. */
  lemma SimTemplate(fuel: nat, form: Val, env: nat, depth: nat, s: State, k: Stack) returns (n: nat)
    requires s.live == LiveBlocks(k)
    ensures Simulates(n, Perform(D, StartTemplate(Compile(form, depth), env, k, s.store)),
                      QqExpand(fuel, form, env, depth, s), k, fuel)
    decreases fuel, 1, form, 1
  {
    if !form.Cons? {
      n := 0;
    } else if form.car == Sym(SQuasiquote) {
      n := SimRebuilt(fuel, SQuasiquote, form, env, depth + 1, s, k);
    } else if form.car == Sym(SUnquote) || form.car == Sym(SUnquoteSplicing) {
      if depth == 0 {
        n := SimEval(fuel, Car(form.cdr), env, s, k);
      } else {
        n := SimRebuilt(fuel, form.car.name, form, env, depth - 1, s, k);
      }
    } else {
      n := SimParts(fuel, form, env, depth, s, k);
    }
  }

  predicate IsPlainPair(form: Val) {
    form.Cons? && form.car != Sym(SQuasiquote) && form.car != Sym(SUnquote) && form.car != Sym(SUnquoteSplicing)
  }

  lemma SimParts(fuel: nat, form: Val, env: nat, depth: nat, s: State, k: Stack) returns (n: nat)
    requires s.live == LiveBlocks(k) && IsPlainPair(form)
    ensures Simulates(n, Perform(D, StartTemplate(Compile(form, depth), env, k, s.store)),
                      QqExpand(fuel, form, env, depth, s), k, fuel)
    decreases fuel, 1, form, 0
  {
    var t := Compile(form, depth);
    var frame := KHead(t, t.tail, env);
    var spliced := form.car.Cons? && form.car.car == Sym(SUnquoteSplicing);
    var head :=
      if !spliced then QqExpand(fuel, form.car, env, depth, s)
      else if depth == 0 then OsEval(fuel, Car(form.car.cdr), env, s)
      else QqWrap(fuel, SUnquoteSplicing, form.car, env, depth - 1, s);
    var m;
    if !spliced {
      m := SimTemplate(fuel, form.car, env, depth, s, Push(frame, k));
    } else if depth == 0 {
      m := SimEval(fuel, Car(form.car.cdr), env, s, Push(frame, k));
    } else {
      m := SimRebuilt(fuel, SUnquoteSplicing, form.car, env, depth - 1, s, Push(frame, k));
    }
    n := m;
    if head.Done? {
      var m2 := SimTemplate(fuel, form.cdr, env, depth, head.state, Push(KTail(t, head.val), k));
      n := SimPair(t, env, m, head, m2, QqExpand(fuel, form.cdr, env, depth, head.state), s, k, fuel);
    }
  }

  /** The two parts of a pair or splice, in order, and then the allocation. */
  lemma SimPair(t: Template, env: nat, m1: nat, head: Outcome, m2: nat, tail: Outcome, s: State, k: Stack, fuel: nat)
      returns (n: nat)
    requires t.Pairing? || t.Splicing?
    requires head.Done?
    requires Simulates(m1, Perform(D, StartTemplate(t, env, k, s.store)), head, Push(KHead(t, t.tail, env), k), fuel)
    requires Simulates(m2, Perform(D, StartTemplate(t.tail, env, Push(KTail(t, head.val), k), head.state.store)),
                       tail, Push(KTail(t, head.val), k), fuel)
    ensures var o := if tail.OutOfFuel? then OutOfFuel
                     else With(tail.state, if t.Splicing? then Append(tail.state.store, head.val, tail.val)
                                           else MkCons(tail.state.store, head.val, tail.val));
            Simulates(n, Perform(D, StartTemplate(t, env, k, s.store)), o, k, fuel)
  {
    var c := Perform(D, StartTemplate(t, env, k, s.store));
    var f1 := KHead(t, t.tail, env);
    var f2 := KTail(t, head.val);
    Lands(head.val, f1, k, head.state.store);
    Resumed(m1, c, head.val, f1, k, head.state.store, m2, tail, Push(f2, k), fuel);
    n := m1 + 1 + m2;
    if tail.Done? {
      Lands(tail.val, f2, k, tail.state.store);
      var made := if t.Splicing? then Append(tail.state.store, head.val, tail.val)
                  else MkCons(tail.state.store, head.val, tail.val);
      Resumed(n, c, tail.val, f2, k, tail.state.store, 0, With(tail.state, made), k, fuel);
      n := n + 1 + 0;
    }
  }

  lemma SimRebuilt(fuel: nat, op: Name, form: Val, env: nat, depth: nat, s: State, k: Stack) returns (n: nat)
    requires form.Cons?
    requires s.live == LiveBlocks(k)
    ensures Simulates(n, Perform(D, StartTemplate(Rebuilt(op, Operand(form, depth)), env, k, s.store)),
                      QqWrap(fuel, op, form, env, depth, s), k, fuel)
    decreases fuel, 1, form, 0
  {
    var t := Rebuilt(op, Operand(form, depth));
    var k1 := Push(KTail(t, Sym(op)), k);
    Lands(Sym(op), KHead(t, t.tail, env), k, s.store);
    var inner := if form.cdr.Cons? then QqExpand(fuel, form.cdr.car, env, depth, s) else Done(Nil, s);
    var m := 0;
    if form.cdr.Cons? {
      m := SimTemplate(fuel, form.cdr.car, env, depth, s, Push(KHead(t.tail, t.tail.tail, env), k1));
    }
    var here := Done(Sym(op), s);
    var c1 := Perform(D, StartTemplate(t.tail, env, k1, s.store));
    assert Run(D, 0, Perform(D, StartTemplate(t, env, k, s.store))) ==
           Ret(Sym(op), Push(KHead(t, t.tail, env), k), s.store);
    if inner.OutOfFuel? {
      Resumed(0, Perform(D, StartTemplate(t, env, k, s.store)), Sym(op), KHead(t, t.tail, env), k, s.store, m,
          OutOfFuel, k1, fuel);
      n := 0 + 1 + m;
    } else {
      var m2 := SimPair(t.tail, env, m, inner, 0, Done(Nil, inner.state), s, k1, fuel);
      var tail := With(inner.state, MkCons(inner.state.store, inner.val, Nil));
      n := SimPair(t, env, 0, here, m2, tail, s, k, fuel);
    }
  }

  lemma SimBlock(fuel: nat, args: Val, env: nat, s: State, k: Stack) returns (n: nat)
    requires s.live == LiveBlocks(k)
    ensures Simulates(n, Perform(D, Named(SBlock, args, env, k, s.store)), EvalBlock(fuel, args, env, s), k, fuel)
    decreases fuel, 6, Nil
  {
    var frame := KBlock(Car(args));
    var inside := s.(live := [Car(args)] + s.live);
    n := SimProgn(fuel, Cdr(args), env, inside, Push(frame, k));
    var r := EvalProgn(fuel, Cdr(args), env, inside);
    if r.Done? { Lands(r.val, frame, k, r.state.store); }
    if r.Done? && !IsExit(r.val) {
      Resumed(n, StartProgn(Cdr(args), env, Push(frame, k), s.store), r.val, frame, k, r.state.store, 0,
              EvalBlock(fuel, args, env, s), k, fuel);
      n := n + 1 + 0;
    }
  }

  lemma SimReturnFrom(fuel: nat, args: Val, env: nat, s: State, k: Stack) returns (n: nat)
    requires s.live == LiveBlocks(k)
    ensures Simulates(n, Perform(D, Named(SReturnFrom, args, env, k, s.store)), EvalReturnFrom(fuel, args, env, s), k,
            fuel)
    decreases fuel, 6, Nil
  {
    n := 0;
    if Cdr(args) != Nil {
      n := SimLast(fuel, Car(Cdr(args)), env, s, KReturnFrom(Car(args)), EvalReturnFrom(fuel, args, env, s), k);
    }
  }

  lemma SimUnwindProtect(fuel: nat, args: Val, env: nat, s: State, k: Stack) returns (n: nat)
    requires s.live == LiveBlocks(k)
    ensures Simulates(n, Perform(D, Named(SUnwindProtect, args, env, k, s.store)),
                      EvalUnwindProtect(fuel, args, env, s), k, fuel)
    decreases fuel, 6, Nil
  {
    var frame := KProtect(Cdr(args), env);
    var c := Ev(Car(args), env, Push(frame, k), s.store);
    n := SimEval(fuel, Car(args), env, s, Push(frame, k));
    var r := OsEval(fuel, Car(args), env, s);
    if r.Done? {
      var after := KCleanup(r.val);
      var cleanup := EvalProgn(fuel, Cdr(args), env, r.state);
      var m := SimProgn(fuel, Cdr(args), env, r.state, Push(after, k));
      Lands(r.val, frame, k, r.state.store);
      if cleanup.Done? { Lands(cleanup.val, after, k, cleanup.state.store); }
      if IsExit(r.val) {
        Prefixed(n, c, m, cleanup, Push(after, k), fuel);
        n := n + m;
      } else {
        Resumed(n, c, r.val, frame, k, r.state.store, m, cleanup, Push(after, k), fuel);
        n := n + 1 + m;
      }
      if cleanup.Done? && !IsExit(cleanup.val) {
        Resumed(n, c, cleanup.val, after, k, cleanup.state.store, 0, EvalUnwindProtect(fuel, args, env, s), k, fuel);
        n := n + 1 + 0;
      }
    }
  }

  lemma SimCatch(fuel: nat, args: Val, env: nat, s: State, k: Stack) returns (n: nat)
    requires s.live == LiveBlocks(k)
    ensures Simulates(n, Perform(D, Named(SCatch, args, env, k, s.store)), EvalCatch(fuel, args, env, s), k, fuel)
    decreases fuel, 6, Nil
  {
    var frame := KCatchTag(Cdr(args), env);
    var c := Ev(Car(args), env, Push(frame, k), s.store);
    n := SimEval(fuel, Car(args), env, s, Push(frame, k));
    var tag := OsEval(fuel, Car(args), env, s);
    if Stops(tag) {
      Passes(n, c, tag, frame, k, fuel);
    } else {
      var m := SimCatchBody(fuel, tag.val, Cdr(args), env, tag.state, k);
      Continues(n, c, tag, frame, k, m, EvalCatch(fuel, args, env, s), fuel);
      n := n + 1 + m;
    }
  }

  lemma SimCatchBody(fuel: nat, tag: Val, body: Val, env: nat, s: State, k: Stack) returns (n: nat)
    requires s.live == LiveBlocks(k)
    ensures var r := EvalProgn(fuel, body, env, s);
            var o := if r.Done? && r.val.CatchExit? && r.val.tag == tag then Done(r.val.value, r.state) else r;
            Simulates(n, StartProgn(body, env, Push(KCatch(tag), k), s.store), o, k, fuel)
    decreases fuel, 5, Nil
  {
    var frame := KCatch(tag);
    var c := StartProgn(body, env, Push(frame, k), s.store);
    var r := EvalProgn(fuel, body, env, s);
    n := SimProgn(fuel, body, env, s, Push(frame, k));
    if r.Done? {
      Lands(r.val, frame, k, r.state.store);
      if !IsExit(r.val) {
        Resumed(n, c, r.val, frame, k, r.state.store, 0, r, k, fuel);
        n := n + 1 + 0;
      }
    }
  }

  lemma SimThrow(fuel: nat, args: Val, env: nat, s: State, k: Stack) returns (n: nat)
    requires s.live == LiveBlocks(k)
    ensures Simulates(n, Perform(D, Named(SThrow, args, env, k, s.store)), EvalThrow(fuel, args, env, s), k, fuel)
    decreases fuel, 6, Nil
  {
    var frame := KThrowTag(Car(Cdr(args)), env);
    n := SimEval(fuel, Car(args), env, s, Push(frame, k));
    var tag := OsEval(fuel, Car(args), env, s);
    var c := Ev(Car(args), env, Push(frame, k), s.store);
    if Stops(tag) {
      Passes(n, c, tag, frame, k, fuel);
    } else {
      var m := SimLast(fuel, Car(Cdr(args)), env, tag.state, KThrow(tag.val), EvalThrow(fuel, args, env, s), k);
      Continues(n, c, tag, frame, k, m, EvalThrow(fuel, args, env, s), fuel);
      n := n + 1 + m;
    }
  }

  /** The list position `pos` and the machine's position in the sequence of forms are the same. */
  predicate Stands(pos: Val, forms: seq<Val>, pc: nat) {
    if pos.Cons? then pc < |forms| && pos.car == forms[pc] && Stands(pos.cdr, forms, pc + 1) else pc == |forms|
  }

  lemma {:induction false} StandsAt(pos: Val, forms: seq<Val>, pc: nat)
    requires pc <= |forms| && Elems(pos) == forms[pc..]
    ensures Stands(pos, forms, pc)
    decreases pos
  {
    if pos.Cons? {
      assert Elems(pos)[0] == pos.car && Elems(pos)[1..] == Elems(pos.cdr);
      StandsAt(pos.cdr, forms, pc + 1);
    } else {
      assert |Elems(pos)| == 0;
    }
  }

  /** The list loop of eval_tagbody and the machine that counts forms. */
  lemma SimTagbody(fuel: nat, body: Val, forms: seq<Val>, pos: Val, pc: nat, env: nat, s: State, k: Stack)
      returns (n: nat)
    requires s.live == LiveBlocks(k) && forms == Elems(body) && Stands(pos, forms, pc)
    ensures Simulates(n, RunTagbody(forms, pc, env, k, s.store), EvalTagbody(fuel, body, pos, env, s), k, fuel)
    decreases fuel, 1, pos, 3
  {
    n := 0;
    if pos.Cons? {
      if IsTag(pos.car) {
        assert RunTagbody(forms, pc, env, k, s.store) == RunTagbody(forms, pc + 1, env, k, s.store);
        n := SimTagbody(fuel, body, forms, pos.cdr, pc + 1, env, s, k);
      } else {
        n := SimTagbodyForm(fuel, body, forms, pos, pc, env, s, k);
      }
    }
  }

  lemma SimTagbodyForm(fuel: nat, body: Val, forms: seq<Val>, pos: Val, pc: nat, env: nat, s: State, k: Stack)
      returns (n: nat)
    requires s.live == LiveBlocks(k) && pos.Cons? && !IsTag(pos.car)
    requires forms == Elems(body) && Stands(pos, forms, pc)
    ensures Simulates(n, Ev(pos.car, env, Push(KTagbody(forms, pc + 1, env), k), s.store),
                      EvalTagbody(fuel, body, pos, env, s), k, fuel)
    decreases fuel, 1, pos, 2
  {
    var frame := KTagbody(forms, pc + 1, env);
    var c := Ev(pos.car, env, Push(frame, k), s.store);
    var r := OsEval(fuel, pos.car, env, s);
    n := SimEval(fuel, pos.car, env, s, Push(frame, k));
    if r.Done? {
      if IsExit(r.val) {
        n := SimFormExit(fuel, n, body, forms, pos, pc, env, s, r, k);
      } else {
        var m := SimFormDone(fuel, body, forms, pos, pc, env, s, r, k);
        Continues(n, c, r, frame, k, m, EvalTagbody(fuel, body, pos, env, s), fuel);
        n := n + 1 + m;
      }
    }
  }

  lemma SimFormExit(fuel: nat, m: nat, body: Val, forms: seq<Val>, pos: Val, pc: nat, env: nat, s: State, r: Outcome,
          k: Stack) returns (n: nat)
    requires s.live == LiveBlocks(k) && pos.Cons? && !IsTag(pos.car) && forms == Elems(body) && m >= 1
    requires r == OsEval(fuel, pos.car, env, s) && r.Done? && IsExit(r.val)
    requires var stack := Push(KTagbody(forms, pc + 1, env), k);
             Simulates(m, Ev(pos.car, env, stack, s.store), r, stack, fuel)
    ensures Simulates(n, Ev(pos.car, env, Push(KTagbody(forms, pc + 1, env), k), s.store),
                      EvalTagbody(fuel, body, pos, env, s), k, fuel)
    decreases fuel, 1, pos, 0
  {
    var frame := KTagbody(forms, pc + 1, env);
    Lands(r.val, frame, k, r.state.store);
    n := SimGo(fuel, m, Ev(pos.car, env, Push(frame, k), s.store), body, forms, r, env, k);
  }

  lemma SimFormDone(fuel: nat, body: Val, forms: seq<Val>, pos: Val, pc: nat, env: nat, s: State, r: Outcome, k: Stack)
      returns (n: nat)
    requires s.live == LiveBlocks(k) && pos.Cons? && !IsTag(pos.car)
    requires r == OsEval(fuel, pos.car, env, s) && r.Done? && !IsExit(r.val)
    requires forms == Elems(body) && Stands(pos, forms, pc)
    ensures Simulates(n, Perform(D, Resume(r.val, KTagbody(forms, pc + 1, env), k, r.state.store)),
                      EvalTagbody(fuel, body, pos, env, s), k, fuel)
    decreases fuel, 1, pos, 0
  {
    n := 0;
    if !IsInstance(r.val) { n := SimTagbody(fuel, body, forms, pos.cdr, pc + 1, env, r.state, k); }
  }

  /** An exit leaves a form of the tagbody: a `go` to an own label resumes behind it. */
  lemma SimGo(fuel: nat, m: nat, c: Config, body: Val, forms: seq<Val>, r: Outcome, env: nat, k: Stack)
      returns (n: nat)
    requires r.Done? && IsExit(r.val) && r.state.live == LiveBlocks(k) && m >= 1 && forms == Elems(body)
    requires Run(D, m, c) ==
             if r.val.GoExit? && Label(forms, r.val.tag).Some? then
               RunTagbody(forms, Label(forms, r.val.tag).value + 1, env, k, r.state.store)
             else Deliver(D, r.val, k, r.state.store)
    ensures var dest := if r.val.GoExit? then FindTag(body, r.val.tag) else None;
            (dest.Some? ==> fuel > 0) ==>
            Simulates(n, c, if dest.None? then r else EvalTagbody(fuel - 1, body, dest.value, env, r.state), k, fuel)
    decreases fuel, 0, Nil, 1
  {
    n := m;
    if r.val.GoExit? {
      FindTagIsLabel(body, r.val.tag);
      var dest := FindTag(body, r.val.tag);
      if dest.Some? && fuel > 0 {
        var pc := Label(forms, r.val.tag).value + 1;
        StandsAt(dest.value, forms, pc);
        n := SimTarget(fuel, m, c, body, forms, dest.value, pc, env, r.state, k);
      }
    }
  }

  /** The tagbody goes on behind one of its own tags. */
  lemma SimTarget(fuel: nat, m: nat, c: Config, body: Val, forms: seq<Val>, pos: Val, pc: nat, env: nat, s: State,
          k: Stack) returns (n: nat)
    requires fuel > 0 && m >= 1 && s.live == LiveBlocks(k) && forms == Elems(body) && Stands(pos, forms, pc)
    requires Run(D, m, c) == RunTagbody(forms, pc, env, k, s.store)
    ensures Simulates(n, c, EvalTagbody(fuel - 1, body, pos, env, s), k, fuel)
    decreases fuel, 0, Nil, 0
  {
    var m2 := SimTagbody(fuel - 1, body, forms, pos, pc, env, s, k);
    Prefixed(m, c, m2, EvalTagbody(fuel - 1, body, pos, env, s), k, fuel - 1);
    n := m + m2;
  }

  /** The scan for a tag finds what follows the first occurrence of the label. */
  lemma {:induction false} FindTagIsLabel(body: Val, tag: Val)
    ensures FindTag(body, tag).Some? == Label(Elems(body), tag).Some?
    ensures FindTag(body, tag).Some? ==>
              var at := Label(Elems(body), tag).value;
              at < |Elems(body)| && Elems(FindTag(body, tag).value) == Elems(body)[at + 1..]
  {
    if body.Cons? {
      assert Elems(body)[1..] == Elems(body.cdr);
      FindTagIsLabel(body.cdr, tag);
    }
  }

  // ---------------------------------------------------------------- whole programs

  ghost predicate Evaluates(form: Val, env: nat, st: Store, v: Val, st': Store) {
    exists fuel: nat ::
      var o := EvalTopLevel(fuel, form, env, State(st, [])); o.TopLevelDone? && o.val == v && o.state.store == st'
  }

  /** A finished evaluation is a halting run. */
  lemma TopLevelHalts(fuel: nat, form: Val, env: nat, st: Store) returns (n: nat)
    ensures match EvalTopLevel(fuel, form, env, State(st, []))
            case TopLevelDone(v, _, t) => Run(D, n, Load(form, env, st)) == Ret(v, Bottom, t.store)
            case TopLevelOutOfFuel => n >= fuel && !Halted(Run(D, n, Load(form, env, st)))
  {
    var frame := KBlock(Sym(STopLevel));
    var s := State(st, [Sym(STopLevel)]);
    assert LiveBlocks(Push(frame, Bottom)) == [Sym(STopLevel)] + [];
    n := SimEval(fuel, form, env, s, Push(frame, Bottom));
    var r := OsEval(fuel, form, env, s);
    assert State(st, []).(live := [Sym(STopLevel)] + []) == s;
    if r.Done? {
      Lands(r.val, frame, Bottom, r.state.store);
      if !IsExit(r.val) {
        RunAdd(D, n, 1, Load(form, env, st));
        assert Run(D, 1, Run(D, n, Load(form, env, st))) == Run(D, 0, Step(D, Run(D, n, Load(form, env, st))));
        n := n + 1;
      }
    }
  }

  /** Main result: the evaluator finishes with a value and a store, for some fuel, exactly
      when the machine halts with them. */
  lemma EvaluatorIsTheMachine(form: Val, env: nat, st: Store, v: Val, st': Store)
    ensures Evaluates(form, env, st, v, st') <==> Computes(D, form, env, st, v, st')
  {
    var c := Load(form, env, st);
    if Evaluates(form, env, st, v, st') {
      var fuel: nat :| var o := EvalTopLevel(fuel, form, env, State(st, []));
                       o.TopLevelDone? && o.val == v && o.state.store == st';
      var n := TopLevelHalts(fuel, form, env, st);
    }
    if Computes(D, form, env, st, v, st') {
      var n: nat :| Run(D, n, c) == Ret(v, Bottom, st');
      var m := TopLevelHalts(n + 1, form, env, st);
      if !Halted(Run(D, m, c)) {
        RunAdd(D, n, m - n, c);
        HaltedStays(D, m - n, Run(D, n, c));
      }
      HaltIsUnique(D, m, n, c);
    }
  }

  /** More fuel never changes a result. */
  lemma FuelDoesNotMatter(f1: nat, f2: nat, form: Val, env: nat, st: Store)
    requires EvalTopLevel(f1, form, env, State(st, [])).TopLevelDone?
    requires EvalTopLevel(f2, form, env, State(st, [])).TopLevelDone?
    ensures var o1 := EvalTopLevel(f1, form, env, State(st, []));
            var o2 := EvalTopLevel(f2, form, env, State(st, []));
            o1.val == o2.val && o1.state == o2.state
  {
    var m := TopLevelHalts(f1, form, env, st);
    var n := TopLevelHalts(f2, form, env, st);
    HaltIsUnique(D, m, n, Load(form, env, st));
  }
}
