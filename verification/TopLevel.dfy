/** What the results about runs of the machine say of os_eval_top_level_ex. */
module TopLevel {
  import opened Lisp
  import opened Eval
  import opened Machine
  import opened Adequacy
  import opened Discipline
  import opened Cleanup
  import opened Aborts
  import opened Tameness

  /** Each finished evaluation is a run with balanced cleanups. */
  lemma EvaluationCleansUp(fuel: nat, form: Val, env: nat, st: Store) returns (n: nat)
    requires EvalTopLevel(fuel, form, env, State(st, [])).TopLevelDone?
    ensures var o := EvalTopLevel(fuel, form, env, State(st, []));
            Run(D, n, Load(form, env, st)) == Ret(o.val, Bottom, o.state.store)
    ensures var t := Trace(D, n, Load(form, env, st));
            Replay([], t) == Some([]) && forall c :: TimesEntered(t, c) == TimesStarted(t, c)
  {
    n := TopLevelHalts(fuel, form, env, st);
    CleanupsRunExactlyOnce(D, n, form, env, st);
  }

  /** Main result for eval.c: when no step leaks, os_eval_top_level_ex never returns a block exit, no
      exit is left in the store, and the result contains one only if it is an uncaught throw or go. */
  lemma TightEvaluation(fuel: nat, form: Val, env: nat, st: Store)
    requires ExitFree(form) && StoreExitFree(st)
    requires RunsTightly(form, env, st)
    requires EvalTopLevel(fuel, form, env, State(st, [])).TopLevelDone?
    ensures var o := EvalTopLevel(fuel, form, env, State(st, []));
            && !o.val.BlockExit?
            && (ExitFree(o.val) || Travelling(o.val))
            && StoreExitFree(o.state.store)
  {
    var o := EvalTopLevel(fuel, form, env, State(st, []));
    var m := TopLevelHalts(fuel, form, env, st);
    TightResult(form, env, st, o.val, o.state.store);
  }

  /** Main result: when no step slips, os_eval_top_level_ex returns what the ISLISP machine
      computes, and no step leaks. */
  lemma CleanEvaluation(fuel: nat, form: Val, env: nat, st: Store)
    requires ExitFree(form) && StoreExitFree(st)
    requires RunsCleanly(form, env, st)
    requires EvalTopLevel(fuel, form, env, State(st, [])).TopLevelDone?
    ensures var o := EvalTopLevel(fuel, form, env, State(st, []));
            && Computes(Islisp, form, env, st, o.val, o.state.store)
            && !o.val.BlockExit?
            && (ExitFree(o.val) || Travelling(o.val))
            && StoreExitFree(o.state.store)
  {
    var c := Load(form, env, st);
    var n: nat :| Halted(Run(Implemented, n, c)) && NoSlip(n, c);
    var m := TopLevelHalts(fuel, form, env, st);
    HaltIsUnique(Implemented, m, n, c);
    LoadSound(form, env, st);
    NoSlipAgrees(n, c);
    NoSlipNoLeak(n, c);
    TightEvaluation(fuel, form, env, st);
  }

  /** Main result: on tame programs and stores eval.c computes exactly what ISLISP asks for: a form
      evaluates to a value and a store if and only if the ISLISP machine halts with them. */
  lemma TameProgramsAgree(form: Val, env: nat, st: Store, v: Val, t: Store, names: Names)
    requires Tame(form, At(names, env), names) && TameStore(st, names) && Sym(STopLevel) in names.blocks
    requires ExitFree(form) && StoreExitFree(st)
    ensures Evaluates(form, env, st, v, t) <==> Computes(Islisp, form, env, st, v, t)
    ensures Evaluates(form, env, st, v, t) ==> !v.BlockExit? && StoreExitFree(t)
  {
    var c := Load(form, env, st);
    EvaluatorIsTheMachine(form, env, st, v, t);
    LoadSound(form, env, st);
    assert Clean(Push(KBlock(Sym(STopLevel)), Bottom), names);
    forall n: nat ensures NoSlip(n, c) && Run(Islisp, n, c) == Run(Implemented, n, c) {
      var later := RunTame(n, c, names);
      NoSlipAgrees(n, c);
    }
    if Evaluates(form, env, st, v, t) {
      var n: nat :| Run(Implemented, n, c) == Ret(v, Bottom, t);
      NoSlipNoLeak(n, c);
      assert RunsTightly(form, env, st);
      TightResult(form, env, st, v, t);
    }
  }

  /** Main result: out_aborted is set exactly if some step of the form's run jumps to the block
      %TOP-LEVEL with a block exit. */
  lemma AbortedIff(fuel: nat, form: Val, env: nat, st: Store)
    requires EvalTopLevel(fuel, form, env, State(st, [])).TopLevelDone?
    ensures EvalTopLevel(fuel, form, env, State(st, [])).aborted <==> EverAborts(Load(form, env, st))
  {
    var s := State(st, [Sym(STopLevel)]);
    assert State(st, []).(live := [Sym(STopLevel)] + []) == s;
    var r := OsEval(fuel, form, env, s);
    assert LiveBlocks(HELD) == LiveBlocks(TOP) == [Sym(STopLevel)] + [];
    var n := SimEval(fuel, form, env, s, HELD);
    var c := Load(form, env, st);
    assert OpenConfig(c) == Ev(form, env, HELD, st);
    Lands(r.val, HOLD, TOP, r.state.store);
    assert Run(D, n, OpenConfig(c)) == Ret(r.val, HELD, r.state.store);
    var pair := MkCons(r.state.store, Nil, r.val);
    var held := Ret(r.val, HELD, r.state.store);
    assert Step(D, held) == Ret(pair.val, TOP, pair.store);
    assert Step(D, Step(D, held)) == Ret(pair.val, Bottom, pair.store);
    assert Run(D, 2, held) == Run(D, 1, Step(D, held)) == Run(D, 0, Step(D, Step(D, held)));
    RunAdd(D, n, 2, OpenConfig(c));
    HeldExit(n + 2, c);
  }

  /** Such a step is the last one, and the top level returns what the exit carried. */
  lemma AbortedCarries(fuel: nat, form: Val, env: nat, st: Store, i: nat)
    requires EvalTopLevel(fuel, form, env, State(st, [])).TopLevelDone?
    requires Aborts.Aborts(Run(D, i, Load(form, env, st)))
    ensures var o := EvalTopLevel(fuel, form, env, State(st, []));
            && Run(D, i + 1, Load(form, env, st)) == Ret(o.val, Bottom, o.state.store)
            && o.val == Leaving(Run(D, i, Load(form, env, st))).value.value
  {
    var c := Run(D, i, Load(form, env, st));
    var a := Act(c);
    LandingEnds(a.val, a.k, a.st);
    RunAdd(D, i, 1, Load(form, env, st));
    assert Run(D, 1, c) == Run(D, 0, Step(D, c));
    var m := TopLevelHalts(fuel, form, env, st);
    HaltIsUnique(D, m, i + 1, Load(form, env, st));
  }
}
