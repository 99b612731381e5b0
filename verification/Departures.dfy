/** Four programs on which eval.c and ISLISP differ, one for each way a step can slip.
    That the dialects differ nowhere else is Discipline.StepsAgreeIff. Two of the four let an exit
    into a value; that nothing else does is Discipline.StepSoundIff. */
module Departures {
  import opened Lisp
  import opened Machine
  import opened Discipline
  import T = Tameness

  function L1(a: Val): Val { Cons(0, a, Nil) }
  function L2(a: Val, b: Val): Val { Cons(0, a, L1(b)) }
  function L3(a: Val, b: Val, c: Val): Val { Cons(0, a, L2(b, c)) }

  const B: Val := Sym(SUser("b"))
  const SEVEN: Val := Atom(7)
  const LEAVE: Val := L3(Sym(SReturnFrom), B, SEVEN)

  function Empty(): Store { Store([Env(false, map[], map[], {}, None)], map[], 0, map[]) }

  lemma Walk(d: Dialect, n: nat, c: Config)
    ensures Run(d, n + 1, c) == Run(d, n, Step(d, c))
  {
  }

  const TOP: Stack := Push(KBlock(Sym(STopLevel)), Bottom)

  lemma OperatorExitStart(d: Dialect)
    ensures Run(d, 4, Load(L3(Sym(SBlock), B, L1(LEAVE)), 0, Empty()))
            == Ret(SEVEN, Push(KReturnFrom(B), Push(KOperator(Nil, 0), Push(KBlock(B), TOP))), Empty())
  {
    var k := Push(KBlock(B), TOP);
    var k1 := Push(KOperator(Nil, 0), k);
    var c0 := Load(L3(Sym(SBlock), B, L1(LEAVE)), 0, Empty());
    var c1 := Ev(L1(LEAVE), 0, k, Empty());
    var c2 := Ev(LEAVE, 0, k1, Empty());
    var c3 := Ev(SEVEN, 0, Push(KReturnFrom(B), k1), Empty());
    assert Step(d, c0) == c1 && Step(d, c1) == c2 && Step(d, c2) == c3;
    Walk(d, 0, c3); Walk(d, 1, c2); Walk(d, 2, c1); Walk(d, 3, c0);
  }

  /** (block b ((return-from b 7))): eval.c takes the exit for the function to call. */
  lemma OperatorExit(d: Dialect)
    ensures Computes(d, L3(Sym(SBlock), B, L1(LEAVE)), 0, Empty(),
                     match d case Islisp => SEVEN case Implemented => Condition(NotAFunction, BlockExit(B, SEVEN)),
                     Empty())
  {
    OperatorExitStart(d);
    var k := Push(KBlock(B), TOP);
    var k1 := Push(KOperator(Nil, 0), k);
    var c0 := Load(L3(Sym(SBlock), B, L1(LEAVE)), 0, Empty());
    var c4 := Ret(SEVEN, Push(KReturnFrom(B), k1), Empty());
    var x := BlockExit(B, SEVEN);
    assert Act(c4) == Give(x, k1, Empty());
    var c5 := Step(d, c4);
    if d.Islisp? {
      assert Jump(d, x, k1, Empty()) == Jump(d, x, k, Empty()) == Ret(SEVEN, TOP, Empty());
    } else {
      assert c5 == Ret(x, k1, Empty());
      assert Enter(x, Nil, 0, k, Empty()) == Give(Raise(NotAFunction, x), k, Empty());
      assert Jump(d, Raise(NotAFunction, x), k, Empty()) == Jump(d, Raise(NotAFunction, x), TOP, Empty());
    }
    Walk(d, 0, c5); Walk(d, 1, c4);
    RunAdd(d, 4, 2, c0);
    assert Run(d, 6, c0) == Step(d, c5);
  }

  const TEMPLATE: Val := L1(L2(Sym(SUnquote), LEAVE))
  const PROGRAM: Template := Pairing(Unquoted(LEAVE), Constant(Nil))

  lemma UnquotedExitStart(d: Dialect)
    ensures var k := Push(KBlock(B), TOP);
            Run(d, 4, Load(L3(Sym(SBlock), B, L2(Sym(SQuasiquote), TEMPLATE)), 0, Empty()))
            == Ret(SEVEN, Push(KReturnFrom(B), Push(KHead(PROGRAM, Constant(Nil), 0), k)), Empty())
  {
    assert Compile(L2(Sym(SUnquote), LEAVE), 0) == Unquoted(LEAVE);
    assert Compile(TEMPLATE, 0) == PROGRAM;
    var k := Push(KBlock(B), TOP);
    var k1 := Push(KHead(PROGRAM, Constant(Nil), 0), k);
    var c0 := Load(L3(Sym(SBlock), B, L2(Sym(SQuasiquote), TEMPLATE)), 0, Empty());
    var c1 := Ev(L2(Sym(SQuasiquote), TEMPLATE), 0, k, Empty());
    var c2 := Ev(LEAVE, 0, k1, Empty());
    var c3 := Ev(SEVEN, 0, Push(KReturnFrom(B), k1), Empty());
    var c4 := Ret(SEVEN, Push(KReturnFrom(B), k1), Empty());
    assert StartTemplate(PROGRAM, 0, k, Empty()) == StartTemplate(Unquoted(LEAVE), 0, k1, Empty()) == Go(c2);
    assert Step(d, c0) == c1 && Step(d, c1) == c2 && Step(d, c2) == c3 && Step(d, c3) == c4;
    Walk(d, 0, c3); Walk(d, 1, c2); Walk(d, 2, c1); Walk(d, 3, c0);
  }

  lemma UnquotedExitEnd(d: Dialect)
    ensures Run(d, 5, Ret(SEVEN, Push(KReturnFrom(B), Push(KHead(PROGRAM, Constant(Nil), 0), Push(KBlock(B), TOP))),
            Empty()))
            == match d
               case Islisp => Ret(SEVEN, Bottom, Empty())
               case Implemented => Ret(Cons(0, BlockExit(B, SEVEN), Nil), Bottom, Empty().(next := 1))
  {
    var k := Push(KBlock(B), TOP);
    var k1 := Push(KHead(PROGRAM, Constant(Nil), 0), k);
    var c4 := Ret(SEVEN, Push(KReturnFrom(B), k1), Empty());
    var x := BlockExit(B, SEVEN);
    assert Act(c4) == Give(x, k1, Empty());
    var c5 := Step(d, c4);
    var c6, c7, c8 := Step(d, c5), Step(d, Step(d, c5)), Step(d, Step(d, Step(d, c5)));
    if d.Islisp? {
      assert Jump(d, x, k1, Empty()) == Jump(d, x, k, Empty()) == Ret(SEVEN, TOP, Empty());
      assert c6 == Ret(SEVEN, Bottom, Empty());
    } else {
      assert c5 == Ret(x, k1, Empty());
      assert c6 == Ret(Nil, Push(KTail(PROGRAM, x), k), Empty());
      assert c7 == Ret(Cons(0, x, Nil), k, Empty().(next := 1));
      assert c8 == Ret(Cons(0, x, Nil), TOP, Empty().(next := 1));
    }
    Walk(d, 0, c8); Walk(d, 1, c7); Walk(d, 2, c6); Walk(d, 3, c5); Walk(d, 4, c4);
  }

  /** (block b (quasiquote ((unquote (return-from b 7))))): eval.c puts the exit into the list. */
  lemma UnquotedExit(d: Dialect)
    ensures Computes(d, L3(Sym(SBlock), B, L2(Sym(SQuasiquote), TEMPLATE)), 0, Empty(),
                     match d case Islisp => SEVEN case Implemented => Cons(0, BlockExit(B, SEVEN), Nil),
                     match d case Islisp => Empty() case Implemented => Empty().(next := 1))
  {
    UnquotedExitStart(d);
    UnquotedExitEnd(d);
    RunAdd(d, 4, 5, Load(L3(Sym(SBlock), B, L2(Sym(SQuasiquote), TEMPLATE)), 0, Empty()));
  }

  lemma FormIsExitFree()
    ensures ExitFree(L3(Sym(SBlock), B, L2(Sym(SQuasiquote), TEMPLATE)))
  {
    assert ExitFree(LEAVE) && ExitFree(TEMPLATE);
  }

  /** There an exit is stored in a list: some step of that run leaks. */
  lemma ExitIsStored()
    ensures !RunsTightly(L3(Sym(SBlock), B, L2(Sym(SQuasiquote), TEMPLATE)), 0, Empty())
    ensures !ExitFree(Cons(0, BlockExit(B, SEVEN), Nil)) && !IsExit(Cons(0, BlockExit(B, SEVEN), Nil))
  {
    var form := L3(Sym(SBlock), B, L2(Sym(SQuasiquote), TEMPLATE));
    UnquotedExit(Implemented);
    EmptyIsExitFree();
    FormIsExitFree();
    if RunsTightly(form, 0, Empty()) {
      TightResult(form, 0, Empty(), Cons(0, BlockExit(B, SEVEN), Nil), Empty().(next := 1));
    }
  }

  lemma EmptyIsExitFree()
    ensures StoreExitFree(Empty())
  {
    assert Empty().envs[1..] == [];
  }

  const THROW: Val := L3(Sym(SThrow), L2(Sym(SQuote), B), SEVEN)

  lemma ThrowStarts(d: Dialect, k: Stack)
    ensures Run(d, 4, Ev(THROW, 0, k, Empty())) == Ret(SEVEN, Push(KThrow(B), k), Empty())
  {
    var c1 := Ev(THROW, 0, k, Empty());
    var c2 := Ev(L2(Sym(SQuote), B), 0, Push(KThrowTag(SEVEN, 0), k), Empty());
    var c3 := Ret(B, Push(KThrowTag(SEVEN, 0), k), Empty());
    var c4 := Ev(SEVEN, 0, Push(KThrow(B), k), Empty());
    assert Step(d, c1) == c2 && Step(d, c2) == c3 && Step(d, c3) == c4;
    Walk(d, 0, c4); Walk(d, 1, c3); Walk(d, 2, c2); Walk(d, 3, c1);
  }

  lemma ThrowToBlockStart(d: Dialect)
    ensures Run(d, 5, Load(L3(Sym(SBlock), B, THROW), 0, Empty()))
            == Ret(SEVEN, Push(KThrow(B), Push(KBlock(B), TOP)), Empty())
  {
    var k := Push(KBlock(B), TOP);
    var c0 := Load(L3(Sym(SBlock), B, THROW), 0, Empty());
    assert Step(d, c0) == Ev(THROW, 0, k, Empty());
    ThrowStarts(d, k);
    Walk(d, 4, c0);
  }

  /** (block b (throw (quote b) 7)): eval.c lets the block catch the throw; in ISLISP no
      catch is there and the throw comes out of the top level. */
  lemma ThrowToBlock(d: Dialect)
    ensures Computes(d, L3(Sym(SBlock), B, THROW), 0, Empty(),
                     match d case Islisp => CatchExit(B, SEVEN) case Implemented => SEVEN, Empty())
  {
    ThrowToBlockStart(d);
    var k := Push(KBlock(B), TOP);
    var c0 := Load(L3(Sym(SBlock), B, THROW), 0, Empty());
    var c5 := Ret(SEVEN, Push(KThrow(B), k), Empty());
    var x := CatchExit(B, SEVEN);
    assert Act(c5) == Give(x, k, Empty());
    if d.Islisp? {
      assert Jump(d, x, k, Empty()) == Jump(d, x, TOP, Empty()) == Jump(d, x, Bottom, Empty());
    } else {
      assert Jump(d, x, k, Empty()) == Ret(SEVEN, TOP, Empty());
    }
    var c6 := Step(d, c5);
    Walk(d, 0, c6); Walk(d, 1, c5);
    RunAdd(d, 5, 2, c0);
    assert Run(d, 7, c0) == Step(d, c6);
  }

  /** (tagbody (lambda)): a function object is an instance, so eval.c returns it, not nil. */
  lemma InstanceInTagbody(d: Dialect)
    ensures Computes(d, L2(Sym(STagbody), L1(Sym(SLambda))), 0, Empty(),
                     match d case Islisp => Nil case Implemented => Closure(0, Nil, Nil, 0), Empty().(next := 1))
  {
    var lambda := L1(Sym(SLambda));
    var forms := [lambda];
    assert Elems(L1(lambda)) == forms;
    var c0 := Load(L2(Sym(STagbody), lambda), 0, Empty());
    var k := Push(KTagbody(forms, 1, 0), TOP);
    var c1 := Ev(lambda, 0, k, Empty());
    assert NextForm(forms, 0) == 0 && NextForm(forms, 1) == 1;
    assert Named(STagbody, L1(lambda), 0, TOP, Empty()) == Go(RunTagbody(Elems(L1(lambda)), 0, 0, TOP, Empty()));
    assert RunTagbody(forms, 0, 0, TOP, Empty()) == c1;
    assert Step(d, c0) == c1;
    var st := Empty().(next := 1);
    var c2 := Ret(Closure(0, Nil, Nil, 0), k, st);
    assert Step(d, c1) == c2;
    var c3 := Step(d, c2);
    assert c3 == Ret(if d.Islisp? then Nil else Closure(0, Nil, Nil, 0), TOP, st);
    var c4 := Step(d, c3);
    Walk(d, 0, c3); Walk(d, 1, c2); Walk(d, 2, c1); Walk(d, 3, c0);
    assert Run(d, 4, c0) == c4;
  }

  const C: Val := L2(Sym(SQuote), Sym(SUser("c")))
  const X: Val := Sym(SUser("x"))
  const FILLED: Val := L2(Sym(SQuasiquote), L1(L2(Sym(SUnquote), X)))
  const LEAVING: Val := L3(Sym(SReturnFrom), B, FILLED)
  const GUARDED: Val :=
    L3(Sym(SUnwindProtect), L3(Sym(SThrow), C, LEAVING), L2(Sym(STagbody), L3(Sym(SSetq), X, SEVEN)))

  /** ((lambda (x)
          (block b (catch 'c (unwind-protect (throw 'c (return-from b `(,x))) (tagbody (setq x 7))))))
       7): exits, templates and assignments alone are no departure. */
  const ORDERLY: Val :=
    L2(L3(Sym(SLambda), L1(X), L3(Sym(SBlock), B, L3(Sym(SCatch), C, GUARDED))), SEVEN)

  const NAMES: T.Names := T.Names({B, Sym(STopLevel)}, map[])

  lemma FilledIsTame()
    ensures T.Tame(FILLED, {X}, NAMES)
  {
    var unquote := L2(Sym(SUnquote), X);
    assert Compile(unquote, 0) == Unquoted(X);
    assert Compile(L1(unquote), 0) == Pairing(Unquoted(X), Constant(Nil));
    assert T.SafeTemplate(Unquoted(X), {X}) && T.SafeTemplate(Constant(Nil), {X});
    assert T.TameVal(L1(X), NAMES) && T.TameVal(unquote, NAMES) && T.TameVal(L1(unquote), NAMES);
  }

  lemma ThrownIsTame()
    ensures T.Tame(L3(Sym(SThrow), C, LEAVING), {X}, NAMES)
  {
    FilledIsTame();
    assert T.Tame(C, {X}, NAMES) && T.SafeTag(C, NAMES);
    assert T.TameFrom(1, LEAVING.cdr, {X}, NAMES) == T.TameFrom(0, L1(FILLED), {X}, NAMES);
    assert T.TameAll(L1(FILLED), {X}, NAMES) && T.Tame(LEAVING, {X}, NAMES);
    assert T.TameAll(L1(LEAVING), {X}, NAMES) && T.TameAll(L2(C, LEAVING), {X}, NAMES);
  }

  lemma GuardedIsTame()
    ensures T.Tame(GUARDED, {X}, NAMES)
  {
    ThrownIsTame();
    assert T.Tame(SEVEN, {X}, NAMES);
    var assignment := L3(Sym(SSetq), X, SEVEN);
    assert T.TameFrom(1, assignment.cdr, {X}, NAMES) == T.TameFrom(0, L1(SEVEN), {X}, NAMES);
    assert T.TameAll(L1(SEVEN), {X}, NAMES) && T.Tame(assignment, {X}, NAMES) && T.Quiet(assignment);
    var body := L2(Sym(STagbody), assignment);
    assert T.TameForms(L1(assignment), {X}, NAMES) && T.Tame(body, {X}, NAMES);
    assert T.TameAll(L1(body), {X}, NAMES) && T.TameAll(GUARDED.cdr, {X}, NAMES);
  }

  lemma OrderlyIsTame()
    ensures T.Tame(ORDERLY, T.At(NAMES, 0), NAMES) && T.TameStore(Empty(), NAMES)
  {
    GuardedIsTame();
    var caught := L3(Sym(SCatch), C, GUARDED);
    assert T.Tame(C, {X}, NAMES) && T.TameAll(L1(GUARDED), {X}, NAMES) && T.TameAll(caught.cdr, {X}, NAMES);
    var block := L3(Sym(SBlock), B, caught);
    assert T.Tame(caught, {X}, NAMES) && T.TameAll(L1(caught), {X}, NAMES);
    assert T.TameFrom(1, block.cdr, {X}, NAMES) == T.TameFrom(0, L1(caught), {X}, NAMES);
    assert T.Tame(block, {X}, NAMES) && T.TameAll(L1(block), {X}, NAMES);
    assert T.Params(L1(X)) == {X} && {} + {X} == {X};
    var lambda := ORDERLY.car;
    assert T.TameFrom(1, lambda.cdr, {X}, NAMES) == T.TameFrom(0, L1(block), {X}, NAMES);
    assert T.TameAll(L1(SEVEN), {}, NAMES);
  }
}
