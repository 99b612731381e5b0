/** The evaluator in the form eval.c has it: one object whose environments, dynamic
    bindings, allocation counter and live-block list are updated in place. Every method is
    proved to compute what the function of the same name in Eval computes. */
module Interpreter {
  import opened Lisp
  import opened Eval

  class Evaluator {
    var envs: seq<Env>
    var dyn: map<Val, Val>
    var next: nat
    var live: seq<Val>
    const library: map<(nat, Val), Val>

    constructor (envs: seq<Env>, library: map<(nat, Val), Val>)
      ensures S() == State(Store(envs, map[], 0, library), [])
    {
      this.envs, dyn, next, live, this.library := envs, map[], 0, [], library;
    }

    ghost function St(): Store
      reads this
    {
      Store(envs, dyn, next, library)
    }

    ghost function S(): State
      reads this
    {
      State(St(), live)
    }

    /** The method finished with `v` in the present state exactly if the outcome says so. */
    ghost predicate Yields(ok: bool, v: Val, o: Outcome)
      reads this
    {
      ok == o.Done? && (ok ==> o == Done(v, S()))
    }

    // ------------------------------------------------------------- environments

    method FindVariable(sym: Val, env: nat) returns (at: Option<nat>)
      ensures at == Lisp.FindVariable(envs, sym, env)
      ensures at.Some? ==> at.value < |envs| && sym in envs[at.value].vars
    {
      var cur: nat := env;
      while cur < |envs| && sym !in envs[cur].vars && envs[cur].parent.Some? && envs[cur].parent.value < cur
        invariant Lisp.FindVariable(envs, sym, env) == Lisp.FindVariable(envs, sym, cur)
        decreases cur
      {
        cur := envs[cur].parent.value;
      }
      at := if cur < |envs| && sym in envs[cur].vars then Some(cur) else None;
    }

    method GetVariable(sym: Val, env: nat) returns (v: Val)
      ensures v == Variable(St(), sym, env)
    {
      var at := FindVariable(sym, env);
      v := if at.Some? then envs[at.value].vars[sym] else Raise(UnboundVariable, sym);
    }

    method GetFunction(sym: Val, env: nat) returns (f: Val)
      ensures f == FunctionOf(St(), sym, env)
    {
      var cur: nat := env;
      while cur < |envs| && sym !in envs[cur].funs && envs[cur].parent.Some? && envs[cur].parent.value < cur
        invariant FindFunction(envs, sym, env) == FindFunction(envs, sym, cur)
        decreases cur
      {
        cur := envs[cur].parent.value;
      }
      f := if cur < |envs| && sym in envs[cur].funs then envs[cur].funs[sym] else Nil;
    }

    method IsConstant(sym: Val, env: nat) returns (yes: bool)
      ensures yes == Lisp.IsConstant(envs, sym, env)
    {
      var cur: nat := env;
      while cur < |envs| && sym !in envs[cur].consts && envs[cur].parent.Some? && envs[cur].parent.value < cur
        invariant Lisp.IsConstant(envs, sym, env) == Lisp.IsConstant(envs, sym, cur)
        decreases cur
      {
        cur := envs[cur].parent.value;
      }
      yes := cur < |envs| && sym in envs[cur].consts;
    }

    method DefinitionEnv(env: nat) returns (owner: nat)
      ensures owner == Owner(envs, env)
    {
      var cur: nat := env;
      while cur < |envs| && envs[cur].frame && envs[cur].parent.Some? && envs[cur].parent.value < cur
        invariant Owner(envs, env) == Owner(envs, cur)
        decreases cur
      {
        cur := envs[cur].parent.value;
      }
      owner := if cur < |envs| && !envs[cur].frame then cur else GLOBAL;
    }

    method SetVariable(sym: Val, v: Val, env: nat)
      modifies this`envs
      ensures St() == Lisp.SetVariable(old(St()), sym, v, env)
    {
      if env < |envs| { envs := envs[env := envs[env].(vars := envs[env].vars[sym := v])]; }
    }

    method SetqVariable(sym: Val, v: Val, env: nat)
      modifies this`envs
      ensures St() == Lisp.SetqVariable(old(St()), sym, v, env)
    {
      var at := FindVariable(sym, env);
      SetVariable(sym, v, if at.Some? then at.value else env);
    }

    method SetFunction(sym: Val, f: Val, env: nat)
      modifies this`envs
      ensures St() == Lisp.SetFunction(old(St()), sym, f, env)
    {
      if env < |envs| { envs := envs[env := envs[env].(funs := envs[env].funs[sym := f])]; }
    }

    method MarkConstant(sym: Val, env: nat)
      modifies this`envs
      ensures St() == Lisp.MarkConstant(old(St()), sym, env)
    {
      if env < |envs| { envs := envs[env := envs[env].(consts := envs[env].consts + {sym})]; }
    }

    method MakeFrame(parent: nat) returns (frame: nat)
      modifies this`envs
      ensures frame == |old(envs)| && St() == NewFrame(old(St()), parent)
    {
      frame := |envs|;
      envs := envs + [Env(true, map[], map[], {}, Some(parent))];
    }

    method Allocate(a: Val, d: Val) returns (c: Val)
      modifies this`next
      ensures Made(c, St()) == MkCons(old(St()), a, d)
    {
      c := Cons(next, a, d);
      next := next + 1;
    }

    method MakeClosure(params: Val, body: Val, scope: nat) returns (f: Val)
      modifies this`next
      ensures Made(f, St()) == MkClosure(old(St()), params, body, scope)
    {
      f := Closure(next, params, body, scope);
      next := next + 1;
    }

    /** qq_append */
    method QqAppend(list: Val, tail: Val) returns (v: Val)
      modifies this`next
      ensures Made(v, St()) == Append(old(St()), list, tail)
      decreases list
    {
      if list == Nil { return tail; }
      var rest := tail;
      if list.Cons? { rest := QqAppend(list.cdr, tail); }
      v := Allocate(Car(list), rest);
    }

    method QqWrap(op: Name, inner: Val) returns (v: Val)
      modifies this`next
      ensures Made(v, St()) == MkPair(old(St()), op, inner)
    {
      var tail := Allocate(inner, Nil);
      v := Allocate(Sym(op), tail);
    }

    method BindParams(params: Val, args: Val, env: nat) returns (ok: bool)
      modifies this`envs
      ensures Bound(ok, St()) == Lisp.BindParams(old(St()), params, args, env)
    {
      var p, a := params, args;
      while p.Cons?
        invariant Lisp.BindParams(old(St()), params, args, env) == Lisp.BindParams(St(), p, a, env)
        decreases p
      {
        if p.car == Sym(SRest) {
          SetVariable(Car(p.cdr), a, env);
          return true;
        }
        if a == Nil { return false; }
        SetVariable(p.car, Car(a), env);
        p, a := p.cdr, Cdr(a);
      }
      ok := a == Nil;
    }

    // ------------------------------------------------------------- evaluation

    method OsEval(fuel: nat, exp: Val, env: nat) returns (ok: bool, v: Val)
      modifies this
      ensures Yields(ok, v, Eval.OsEval(fuel, exp, env, old(S())))
      decreases fuel, 0, Nil
    {
      if fuel == 0 { return false, Nil; }
      ok, v := true, exp;
      if exp.Sym? {
        v := GetVariable(exp, env);
      } else if exp.Cons? && exp.car.Sym? {
        ok, v := EvalNamed(fuel - 1, exp.car.name, exp.cdr, env);
      } else if exp.Cons? {
        ok, v := EvalForm(fuel - 1, exp.car, exp.cdr, env);
      }
    }

    method EvalNamed(fuel: nat, op: Name, args: Val, env: nat) returns (ok: bool, v: Val)
      modifies this
      ensures Yields(ok, v, Eval.EvalNamed(fuel, op, args, env, old(S())))
      decreases fuel, 9, Nil
    {
      if op.SQuote? { ok, v := true, Car(args); }
      else if op.SIf? { ok, v := EvalIf(fuel, args, env); }
      else if op.SProgn? { ok, v := EvalProgn(fuel, args, env); }
      else if op.SQuasiquote? { ok, v := QqExpand(fuel, Car(args), env, 0); }
      else if op.SBlock? { ok, v := EvalBlock(fuel, args, env); }
      else if op.SReturnFrom? { ok, v := EvalReturnFrom(fuel, args, env); }
      else if op.SUnwindProtect? { ok, v := EvalUnwindProtect(fuel, args, env); }
      else if op.SFunction? { ok, v := EvalFunction(fuel, args, env); }
      else if op.SDeclaim? || op.SDeclare? { ok, v := true, Nil; }
      else if op.SCatch? { ok, v := EvalCatch(fuel, args, env); }
      else if op.SThrow? { ok, v := EvalThrow(fuel, args, env); }
      else if op.STagbody? { ok, v := EvalTagbody(fuel, args, env); }
      else if op.SGo? { ok, v := true, GoExit(Car(args)); }
      else { ok, v := EvalDefining(fuel, op, args, env); }
    }

    /** The rest of the dispatch: forms that bind names, and calls. */
    method EvalDefining(fuel: nat, op: Name, args: Val, env: nat) returns (ok: bool, v: Val)
      requires !(op.SQuote? || op.SIf? || op.SProgn? || op.SQuasiquote? || op.SBlock? || op.SReturnFrom? ||
                 op.SUnwindProtect? || op.SFunction? || op.SDeclaim? || op.SDeclare? || op.SCatch? || op.SThrow? ||
                 op.STagbody? || op.SGo?)
      modifies this
      ensures Yields(ok, v, Eval.EvalNamed(fuel, op, args, env, old(S())))
      decreases fuel, 8, Cons(0, Nil, Nil)
    {
      if op.SSetq? { ok, v := EvalSetq(fuel, args, env); }
      else if op.SDefun? { v := EvalDefun(args, env); ok := true; }
      else if op.SLambda? { v := MakeClosure(Car(args), Cdr(args), env); ok := true; }
      else if op.SDefmacro? { v := EvalDefmacro(args, env); ok := true; }
      else if op.SFlet? { ok, v := EvalLocalFunctions(fuel, args, env, false); }
      else if op.SLabels? { ok, v := EvalLocalFunctions(fuel, args, env, true); }
      else if op.SDefvar? { ok, v := EvalDefvar(fuel, args, env); }
      else if op.SDefconstant? { ok, v := EvalDefconstant(fuel, args, env); }
      else if op.SDefdynamic? { ok, v := EvalDefdynamic(fuel, args, env); }
      else if op.SDefglobal? { ok, v := EvalDefglobal(fuel, args, env); }
      else if op.SDynamic? { ok, v := true, if Car(args) in dyn then dyn[Car(args)] else Nil; }
      else { ok, v := EvalCall(fuel, op, args, env); }
    }

    method EvalCall(fuel: nat, op: Name, args: Val, env: nat) returns (ok: bool, v: Val)
      modifies this
      ensures Yields(ok, v, Eval.EvalCall(fuel, op, args, env, old(S())))
      decreases fuel, 8, Nil
    {
      var f := GetFunction(Sym(op), env);
      if f.Macro? {
        ok, v := ApplyMacro(fuel, f, args);
        if ok { ok, v := OsEval(fuel, v, env); }
      } else {
        ok, v := EvalForm(fuel, Sym(op), args, env);
      }
    }

    method EvalArgs(fuel: nat, args: Val, env: nat) returns (ok: bool, v: Val)
      modifies this
      ensures Yields(ok, v, Eval.EvalArgs(fuel, args, env, old(S())))
      decreases fuel, 1, args
    {
      if !args.Cons? { return true, Nil; }
      var head, tail;
      ok, head := OsEval(fuel, args.car, env);
      if !ok || IsExit(head) { return ok, head; }
      ok, tail := EvalArgs(fuel, args.cdr, env);
      if !ok || IsExit(tail) { return ok, tail; }
      v := Allocate(head, tail);
    }

    method EvalProgn(fuel: nat, body: Val, env: nat) returns (ok: bool, v: Val)
      modifies this
      ensures Yields(ok, v, Eval.EvalProgn(fuel, body, env, old(S())))
      decreases fuel, 1, body
    {
      ok, v := true, Nil;
      var rest := body;
      while rest.Cons?
        invariant Eval.EvalProgn(fuel, body, env, old(S())) ==
                  if rest.Cons? then Eval.EvalProgn(fuel, rest, env, S()) else Done(v, S())
        decreases rest
      {
        ok, v := OsEval(fuel, rest.car, env);
        if !ok || IsExit(v) { return; }
        rest := rest.cdr;
      }
      ok := true;
    }

    method ApplyFunction(fuel: nat, f: Val, args: Val, env: nat) returns (ok: bool, v: Val)
      modifies this
      ensures Yields(ok, v, Eval.ApplyFunction(fuel, f, args, env, old(S())))
      decreases fuel, 3, Size(args)
    {
      ok, v := true, Raise(NotAFunction, f);
      if f == Native(Funcall) {
        if args.Cons? { ok, v := ApplyFunction(fuel, args.car, args.cdr, env); }
        else { v := Raise(NotAFunction, Nil); }
      } else if f == Native(Apply) {
        assert args.Cons? ==> Size(Car(args.cdr)) <= Size(args.cdr);
        if args.Cons? { ok, v := ApplyFunction(fuel, args.car, Car(args.cdr), env); }
        else { v := Raise(NotAFunction, Nil); }
      } else if f == Native(Macroexpand1) {
        ok, v := Macroexpand(fuel, Car(args), env);
      } else if f == Native(MakeCons) {
        v := Allocate(Car(args), Car(Cdr(args)));
      } else if f.Native? {
        v := if (f.prim.id, args) in library then library[(f.prim.id, args)] else Nil;
      } else if f.Closure? {
        var callEnv := MakeFrame(f.scope);
        var bound := BindParams(f.params, args, callEnv);
        if bound { ok, v := EvalProgn(fuel, f.body, callEnv); } else { v := Raise(Arity, Nil); }
      }
    }

    method ApplyMacro(fuel: nat, m: Val, args: Val) returns (ok: bool, v: Val)
      requires m.Macro?
      modifies this
      ensures Yields(ok, v, Eval.ApplyMacro(fuel, m, args, old(S())))
      decreases fuel, 2, Nil
    {
      var callEnv := MakeFrame(m.scope);
      var _ := BindParams(m.params, args, callEnv);
      ok, v := EvalProgn(fuel, m.body, callEnv);
    }

    method Macroexpand(fuel: nat, form: Val, env: nat) returns (ok: bool, v: Val)
      modifies this
      ensures Yields(ok, v, Eval.Macroexpand(fuel, form, env, old(S())))
      decreases fuel, 2, Cons(0, Nil, Nil)
    {
      ok, v := true, form;
      if form.Cons? && form.car.Sym? {
        var f := GetFunction(form.car, env);
        if f.Macro? { ok, v := ApplyMacro(fuel, f, form.cdr); }
      }
    }

    method EvalForm(fuel: nat, op: Val, args: Val, env: nat) returns (ok: bool, v: Val)
      modifies this
      ensures Yields(ok, v, Eval.EvalForm(fuel, op, args, env, old(S())))
      decreases fuel, 7, Nil
    {
      var f;
      if op.Sym? { f := GetFunction(op, env); ok := true; } else { ok, f := OsEval(fuel, op, env); }
      if !ok { return false, Nil; }
      if f == Nil { return true, if op.Sym? then Raise(UndefinedFunction, op) else Raise(NotAFunction, Nil); }
      ok, v := EvalArgs(fuel, args, env);
      if ok && !IsExit(v) { ok, v := ApplyFunction(fuel, f, v, env); }
    }

    method EvalIf(fuel: nat, args: Val, env: nat) returns (ok: bool, v: Val)
      modifies this
      ensures Yields(ok, v, Eval.EvalIf(fuel, args, env, old(S())))
      decreases fuel, 6, Nil
    {
      ok, v := OsEval(fuel, Car(args), env);
      if !ok || IsExit(v) { return; }
      if v != Nil { ok, v := OsEval(fuel, Car(Cdr(args)), env); }
      else if Cdr(Cdr(args)) != Nil { ok, v := OsEval(fuel, Car(Cdr(Cdr(args))), env); }
    }

    method EvalSetq(fuel: nat, args: Val, env: nat) returns (ok: bool, v: Val)
      modifies this
      ensures Yields(ok, v, Eval.EvalSetq(fuel, args, env, old(S())))
      decreases fuel, 6, Nil
    {
      var constant := IsConstant(Car(args), env);
      if constant { return true, Raise(ImmutableBinding, Nil); }
      ok, v := OsEval(fuel, Car(Cdr(args)), env);
      if ok && !IsExit(v) { SetqVariable(Car(args), v, env); }
    }

    method EvalDefun(args: Val, env: nat) returns (v: Val)
      modifies this
      ensures Yields(true, v, Eval.EvalDefun(args, env, old(S())))
    {
      var owner := DefinitionEnv(env);
      var f := MakeClosure(Car(Cdr(args)), Cdr(Cdr(args)), env);
      SetFunction(Car(args), f, owner);
      v := Car(args);
    }

    method EvalDefmacro(args: Val, env: nat) returns (v: Val)
      modifies this
      ensures Yields(true, v, Eval.EvalDefmacro(args, env, old(S())))
    {
      var owner := DefinitionEnv(env);
      var m := Macro(next, Car(Cdr(args)), Cdr(Cdr(args)), env);
      next := next + 1;
      SetFunction(Car(args), m, owner);
      v := Car(args);
    }

    method EvalDefvar(fuel: nat, args: Val, env: nat) returns (ok: bool, v: Val)
      modifies this
      ensures Yields(ok, v, Eval.EvalDefvar(fuel, args, env, old(S())))
      decreases fuel, 6, Nil
    {
      var owner := DefinitionEnv(env);
      if owner < |envs| && Car(args) in envs[owner].vars { return true, Car(args); }
      ok, v := true, Nil;
      if Cdr(args) != Nil { ok, v := OsEval(fuel, Car(Cdr(args)), env); }
      if !ok || IsExit(v) { return; }
      SetVariable(Car(args), v, owner);
      v := Car(args);
    }

    method EvalDefconstant(fuel: nat, args: Val, env: nat) returns (ok: bool, v: Val)
      modifies this
      ensures Yields(ok, v, Eval.EvalDefconstant(fuel, args, env, old(S())))
      decreases fuel, 6, Nil
    {
      var owner := DefinitionEnv(env);
      ok, v := OsEval(fuel, Car(Cdr(args)), env);
      if !ok || IsExit(v) { return; }
      SetVariable(Car(args), v, owner);
      MarkConstant(Car(args), owner);
      v := Car(args);
    }

    method EvalDefdynamic(fuel: nat, args: Val, env: nat) returns (ok: bool, v: Val)
      modifies this
      ensures Yields(ok, v, Eval.EvalDefdynamic(fuel, args, env, old(S())))
      decreases fuel, 6, Nil
    {
      ok, v := OsEval(fuel, Car(Cdr(args)), env);
      if !ok || IsExit(v) { return; }
      dyn := dyn[Car(args) := v];
      v := Car(args);
    }

    method EvalDefglobal(fuel: nat, args: Val, env: nat) returns (ok: bool, v: Val)
      modifies this
      ensures Yields(ok, v, Eval.EvalDefglobal(fuel, args, env, old(S())))
      decreases fuel, 6, Nil
    {
      var owner := DefinitionEnv(env);
      ok, v := OsEval(fuel, Car(Cdr(args)), env);
      if !ok || IsExit(v) { return; }
      SetVariable(Car(args), v, owner);
      v := Car(args);
    }

    method EvalFunction(fuel: nat, args: Val, env: nat) returns (ok: bool, v: Val)
      modifies this
      ensures Yields(ok, v, Eval.EvalFunction(fuel, args, env, old(S())))
      decreases fuel, 6, Nil
    {
      if !Car(args).Sym? { ok, v := OsEval(fuel, Car(args), env); return; }
      v := GetFunction(Car(args), env);
      ok := true;
      if v == Nil { v := Raise(UndefinedFunction, Car(args)); }
    }

    /** eval_flet and eval_labels */
    method EvalLocalFunctions(fuel: nat, args: Val, env: nat, recursive: bool) returns (ok: bool, v: Val)
      modifies this
      ensures Yields(ok, v, Eval.EvalLocalFunctions(fuel, args, env, recursive, old(S())))
      decreases fuel, 6, Nil
    {
      var inner := MakeFrame(env);
      ghost var start := St();
      var scope := if recursive then inner else env;
      var b := Car(args);
      while b.Cons?
        invariant BindFunctions(start, Car(args), scope, inner) == BindFunctions(St(), b, scope, inner)
        invariant live == old(live)
        decreases b
      {
        var f := MakeClosure(Car(Cdr(b.car)), Cdr(Cdr(b.car)), scope);
        SetFunction(Car(b.car), f, inner);
        b := b.cdr;
      }
      ok, v := EvalProgn(fuel, Cdr(args), inner);
    }

    method QqExpand(fuel: nat, form: Val, env: nat, depth: nat) returns (ok: bool, v: Val)
      modifies this
      ensures Yields(ok, v, Eval.QqExpand(fuel, form, env, depth, old(S())))
      decreases fuel, 1, form
    {
      if !form.Cons? { return true, form; }
      if form.car == Sym(SQuasiquote) {
        ok, v := QqOperand(fuel, SQuasiquote, form, env, depth + 1);
        return;
      }
      if form.car == Sym(SUnquote) || form.car == Sym(SUnquoteSplicing) {
        if depth == 0 { ok, v := OsEval(fuel, Car(form.cdr), env); }
        else { ok, v := QqOperand(fuel, form.car.name, form, env, depth - 1); }
        return;
      }
      var head, tail;
      var spliced := form.car.Cons? && form.car.car == Sym(SUnquoteSplicing);
      if !spliced { ok, head := QqExpand(fuel, form.car, env, depth); }
      else if depth == 0 { ok, head := OsEval(fuel, Car(form.car.cdr), env); }
      else { ok, head := QqOperand(fuel, SUnquoteSplicing, form.car, env, depth - 1); }
      if !ok { return false, Nil; }
      ok, tail := QqExpand(fuel, form.cdr, env, depth);
      if !ok { return false, Nil; }
      if spliced && depth == 0 { v := QqAppend(head, tail); } else { v := Allocate(head, tail); }
    }

    method QqOperand(fuel: nat, op: Name, form: Val, env: nat, depth: nat) returns (ok: bool, v: Val)
      requires form.Cons?
      modifies this
      ensures Yields(ok, v, Eval.QqWrap(fuel, op, form, env, depth, old(S())))
      decreases fuel, 1, form, 0
    {
      ok, v := true, Nil;
      if form.cdr.Cons? { ok, v := QqExpand(fuel, form.cdr.car, env, depth); }
      if ok { v := QqWrap(op, v); }
    }

    method EvalBlock(fuel: nat, args: Val, env: nat) returns (ok: bool, v: Val)
      modifies this
      ensures Yields(ok, v, Eval.EvalBlock(fuel, args, env, old(S())))
      decreases fuel, 6, Nil
    {
      var saved := live;
      live := [Car(args)] + live;
      ok, v := EvalProgn(fuel, Cdr(args), env);
      live := saved;
      if ok && IsExit(v) && Target(v) == Car(args) { v := Payload(v); }
    }

    method EvalReturnFrom(fuel: nat, args: Val, env: nat) returns (ok: bool, v: Val)
      modifies this
      ensures Yields(ok, v, Eval.EvalReturnFrom(fuel, args, env, old(S())))
      decreases fuel, 6, Nil
    {
      ok, v := true, Nil;
      if Cdr(args) != Nil { ok, v := OsEval(fuel, Car(Cdr(args)), env); }
      if !ok || IsExit(v) { return; }
      v := if Car(args) in live then BlockExit(Car(args), v) else Raise(Control, Nil);
    }

    method EvalUnwindProtect(fuel: nat, args: Val, env: nat) returns (ok: bool, v: Val)
      modifies this
      ensures Yields(ok, v, Eval.EvalUnwindProtect(fuel, args, env, old(S())))
      decreases fuel, 6, Nil
    {
      var result, cleanup;
      ok, result := OsEval(fuel, Car(args), env);
      if !ok { return false, Nil; }
      ok, cleanup := EvalProgn(fuel, Cdr(args), env);
      v := if !IsExit(cleanup) then result else if IsExit(result) then Raise(Control, Nil) else cleanup;
    }

    method EvalCatch(fuel: nat, args: Val, env: nat) returns (ok: bool, v: Val)
      modifies this
      ensures Yields(ok, v, Eval.EvalCatch(fuel, args, env, old(S())))
      decreases fuel, 6, Nil
    {
      var tag;
      ok, tag := OsEval(fuel, Car(args), env);
      if !ok || IsExit(tag) { return ok, tag; }
      ok, v := EvalProgn(fuel, Cdr(args), env);
      if ok && v.CatchExit? && v.tag == tag { v := v.value; }
    }

    method EvalThrow(fuel: nat, args: Val, env: nat) returns (ok: bool, v: Val)
      modifies this
      ensures Yields(ok, v, Eval.EvalThrow(fuel, args, env, old(S())))
      decreases fuel, 6, Nil
    {
      var tag;
      ok, tag := OsEval(fuel, Car(args), env);
      if !ok || IsExit(tag) { return ok, tag; }
      ok, v := OsEval(fuel, Car(Cdr(args)), env);
      if ok && !IsExit(v) { v := CatchExit(tag, v); }
    }

    method EvalTagbody(fuel: nat, args: Val, env: nat) returns (ok: bool, v: Val)
      modifies this
      ensures Yields(ok, v, Eval.EvalTagbody(fuel, args, args, env, old(S())))
      decreases fuel, 1, Nil
    {
      var pos := args;
      var left: nat := fuel;
      while pos.Cons?
        invariant left <= fuel
        invariant Eval.EvalTagbody(fuel, args, args, env, old(S())) == Eval.EvalTagbody(left, args, pos, env, S())
        decreases left, pos
      {
        if IsTag(pos.car) {
          pos := pos.cdr;
        } else {
          ok, v := OsEval(left, pos.car, env);
          if !ok { return false, Nil; }
          if IsInstance(v) {
            var dest := None;
            if v.GoExit? { dest := ScanForTag(args, v.tag); }
            if dest.None? { return; }
            if left == 0 { return false, Nil; }
            pos, left := dest.value, left - 1;
          } else {
            pos := pos.cdr;
          }
        }
      }
      ok, v := true, Nil;
    }

    /** The inner loop of eval_tagbody. */
    method ScanForTag(args: Val, tag: Val) returns (dest: Option<Val>)
      ensures dest == FindTag(args, tag)
    {
      var p := args;
      while p.Cons? && !(IsTag(p.car) && p.car == tag)
        invariant FindTag(args, tag) == FindTag(p, tag)
        decreases p
      {
        p := p.cdr;
      }
      dest := if p.Cons? then Some(p.cdr) else None;
    }

    /** os_eval_top_level_ex */
    method EvalTopLevel(fuel: nat, form: Val, env: nat) returns (ok: bool, v: Val, aborted: bool)
      modifies this
      ensures var o := Eval.EvalTopLevel(fuel, form, env, old(S()));
              ok == o.TopLevelDone? && (ok ==> o == TopLevelDone(v, aborted, S()))
    {
      var saved := live;
      live := [Sym(STopLevel)] + live;
      ok, v := OsEval(fuel, form, env);
      live := saved;
      aborted := false;
      if ok && IsExit(v) && Target(v) == Sym(STopLevel) {
        aborted := v.BlockExit?;
        v := Payload(v);
      }
    }
  }
}
