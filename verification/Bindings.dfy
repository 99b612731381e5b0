/** What calls bind, stated over the elements of the two lists: which argument a parameter gets, and
    what assignments and local functions leave visible. */
module Bindings {
  import opened Lisp
  import opened Eval

  // ---------------------------------------------------------------- argument lists

  /** The k-th cdr. */
  function Rest(list: Val, k: nat): Val
    decreases k
  {
    if k == 0 then list else Rest(Cdr(list), k - 1)
  }

  predicate IsProper(list: Val) { if list.Cons? then IsProper(list.cdr) else list == Nil }

  lemma {:induction false} RestOf(list: Val, k: nat)
    ensures Rest(list, k + 1) == Cdr(Rest(list, k))
    decreases k
  {
    if k > 0 { RestOf(Cdr(list), k - 1); }
  }

  /** Of a proper list the k-th cdr is nil exactly from its length on, and begins with element k before. */
  lemma {:induction false} RestOfProper(list: Val, k: nat)
    requires IsProper(list)
    ensures (Rest(list, k) == Nil <==> |Elems(list)| <= k)
    ensures k < |Elems(list)| ==> Car(Rest(list, k)) == Elems(list)[k]
    ensures k <= |Elems(list)| ==> Elems(Rest(list, k)) == Elems(list)[k..]
    decreases k
  {
    if k > 0 {
      RestOfProper(Cdr(list), k - 1);
      if list.Cons? { assert Elems(list)[1..] == Elems(list.cdr); }
    }
  }

  /** At least n arguments. */
  predicate Enough(args: Val, n: nat) { forall k :: 0 <= k < n ==> Rest(args, k) != Nil }

  /** Each name has its argument, the last of equal names counting; names of `later` are bound afterwards. */
  predicate EachBound(vars: map<Val, Val>, names: seq<Val>, args: Val, later: set<Val>) {
    names != [] ==>
      && (names[0] !in names[1..] && names[0] !in later ==> names[0] in vars && vars[names[0]] == Car(args))
      && EachBound(vars, names[1..], Cdr(args), later)
  }

  lemma {:induction false} BoundAt(vars: map<Val, Val>, names: seq<Val>, args: Val, later: set<Val>, k: nat)
    requires EachBound(vars, names, args, later) && k < |names| && names[k] !in names[k + 1..] && names[k] !in later
    ensures names[k] in vars && vars[names[k]] == Car(Rest(args, k))
    decreases k
  {
    if k > 0 {
      assert names[1..][k - 1] == names[k] && names[1..][k..] == names[k + 1..];
      BoundAt(vars, names[1..], Cdr(args), later, k - 1);
    }
  }

  /** Nothing but variables of environment `env` with one of the names differs. */
  ghost predicate OnlyBinds(after: Store, before: Store, env: nat, names: seq<Val>)
    requires env < |before.envs|
  {
    && |after.envs| == |before.envs|
    && after == before.(envs := before.envs[env := before.envs[env].(vars := after.envs[env].vars)])
    && AgreeBut(after.envs[env].vars, before.envs[env].vars, names)
  }

  ghost predicate AgreeBut(after: map<Val, Val>, before: map<Val, Val>, names: seq<Val>) {
    forall x :: x !in names ==> (x in after <==> x in before) && (x in before ==> after[x] == before[x])
  }

  // ---------------------------------------------------------------- parameters

  /** Parameters without &rest: as many arguments as parameters are needed, and parameter k is bound
      to argument k. */
  lemma {:induction false} ParametersBind(st: Store, params: Val, args: Val, env: nat)
    requires env < |st.envs| && Sym(SRest) !in Elems(params)
    ensures var b, names := BindParams(st, params, args, env), Elems(params);
            && (b.ok <==> Enough(args, |names|) && Rest(args, |names|) == Nil)
            && OnlyBinds(b.store, st, env, names)
            && (b.ok ==> EachBound(b.store.envs[env].vars, names, args, {}))
    decreases params
  {
    var names := Elems(params);
    if params.Cons? {
      FewerElems(params);
      if args == Nil {
        assert Rest(args, 0) == Nil;
      } else {
        var next, b := SetVariable(st, params.car, Car(args), env), BindParams(st, params, args, env);
        ParametersBind(next, params.cdr, Cdr(args), env);
        OneMoreNeeded(args, |names| - 1);
        OneMoreChanged(b.store, next, st, env, params.car, Elems(params.cdr));
        if b.ok {
          OneMoreBound(b.store.envs[env].vars, next.envs[env].vars, params.car, Elems(params.cdr), args, {});
        }
      }
    }
  }

  lemma FewerElems(list: Val)
    requires list.Cons?
    ensures Elems(list) == [list.car] + Elems(list.cdr) && Elems(list)[1..] == Elems(list.cdr)
  {
  }

  lemma {:induction false} OneMoreNeeded(args: Val, n: nat)
    ensures Enough(args, n + 1) <==> args != Nil && Enough(Cdr(args), n)
  {
    if args != Nil && Enough(Cdr(args), n) {
      forall k | 0 <= k < n + 1 ensures Rest(args, k) != Nil {
        if k > 0 { assert Rest(args, k) == Rest(Cdr(args), k - 1); }
      }
    }
    if Enough(args, n + 1) {
      assert Rest(args, 0) != Nil;
      forall k | 0 <= k < n ensures Rest(Cdr(args), k) != Nil {
        assert Rest(args, k + 1) == Rest(Cdr(args), k);
      }
    }
  }

  lemma OneMoreBound(vars: map<Val, Val>, before: map<Val, Val>, first: Val, names: seq<Val>, args: Val,
          later: set<Val>)
    requires first in before && before[first] == Car(args)
    requires first !in later && first !in names ==> first in vars && vars[first] == before[first]
    requires EachBound(vars, names, Cdr(args), later)
    ensures EachBound(vars, [first] + names, args, later)
  {
    assert ([first] + names)[1..] == names;
  }

  lemma OneMoreChanged(after: Store, next: Store, before: Store, env: nat, first: Val, names: seq<Val>)
    requires env < |before.envs| == |next.envs| && OnlyBinds(after, next, env, names)
    requires exists v :: next == SetVariable(before, first, v, env)
    ensures OnlyBinds(after, before, env, [first] + names)
  {
    var v :| next == SetVariable(before, first, v, env);
    assert after.envs == before.envs[env := after.envs[env]];
  }

  /** The place of &rest. */
  predicate RestAt(names: seq<Val>, n: nat) {
    n < |names| && names[n] == Sym(SRest) && Sym(SRest) !in names[..n]
  }

  /** The variable behind &rest. */
  function RestName(names: seq<Val>, n: nat): Val { if n + 1 < |names| then names[n + 1] else Nil }

  /** The same by recursion: the parameters before &rest and the variable behind it. */
  function Leading(params: Val): seq<Val> {
    if !params.Cons? || params.car == Sym(SRest) then [] else [params.car] + Leading(params.cdr)
  }

  function Trailing(params: Val): Val {
    if !params.Cons? then Nil else if params.car == Sym(SRest) then Car(params.cdr) else Trailing(params.cdr)
  }

  lemma {:induction false} LeadingIs(params: Val, n: nat)
    requires RestAt(Elems(params), n)
    ensures Leading(params) == Elems(params)[..n] && Trailing(params) == RestName(Elems(params), n)
    decreases params
  {
    FewerElems(params);
    if n == 0 {
      FirstOfRest(params.cdr);
    } else {
      var names := Elems(params);
      assert names[..n][0] == names[0] && names[1..][..n - 1] == names[..n][1..];
      LeadingIs(params.cdr, n - 1);
      assert names[..n] == [names[0]] + names[1..][..n - 1];
    }
  }

  /** Parameters with &rest at place n: at least n arguments are needed, the first n parameters are bound
      as without it, and the variable behind &rest to the n-th cdr of the arguments. */
  lemma RestParameterBinds(st: Store, params: Val, args: Val, env: nat, n: nat)
    requires env < |st.envs| && RestAt(Elems(params), n)
    ensures var b, names, r := BindParams(st, params, args, env), Elems(params), RestName(Elems(params), n);
            && (b.ok <==> Enough(args, n))
            && OnlyBinds(b.store, st, env, names[..n] + [r])
            && (b.ok ==> EachBound(b.store.envs[env].vars, names[..n], args, {r})
                         && r in b.store.envs[env].vars && b.store.envs[env].vars[r] == Rest(args, n))
  {
    LeadingIs(params, n);
    LeadingBinds(st, params, args, env, n);
  }

  lemma {:induction false} LeadingBinds(st: Store, params: Val, args: Val, env: nat, n: nat)
    requires env < |st.envs| && RestAt(Elems(params), n)
    ensures var b, names, r := BindParams(st, params, args, env), Leading(params), Trailing(params);
            && (b.ok <==> Enough(args, n))
            && OnlyBinds(b.store, st, env, names + [r])
            && (b.ok ==> EachBound(b.store.envs[env].vars, names, args, {r})
                         && r in b.store.envs[env].vars && b.store.envs[env].vars[r] == Rest(args, n))
    decreases params
  {
    var r := Trailing(params);
    FewerElems(params);
    if n == 0 {
      assert OnlyBinds(SetVariable(st, r, args, env), st, env, [r]);
      assert Leading(params) + [r] == [r];
    } else if args == Nil {
      assert params.car == Elems(params)[..n][0] && Rest(args, 0) == Nil;
    } else {
      assert params.car == Elems(params)[..n][0] && Elems(params.cdr)[..n - 1] == Elems(params)[..n][1..];
      var next, b, rest := SetVariable(st, params.car, Car(args), env), BindParams(st, params, args, env),
                           Leading(params.cdr);
      LeadingBinds(next, params.cdr, Cdr(args), env, n - 1);
      OneMoreNeeded(args, n - 1);
      OneMoreChanged(b.store, next, st, env, params.car, rest + [r]);
      assert [params.car] + (rest + [r]) == Leading(params) + [r];
      if b.ok { OneMoreBound(b.store.envs[env].vars, next.envs[env].vars, params.car, rest, args, {r}); }
    }
  }

  lemma FirstOfRest(list: Val)
    ensures Car(list) == if Elems(list) == [] then Nil else Elems(list)[0]
  {
  }

  // ---------------------------------------------------------------- calls

  /** A function whose body is its k-th parameter gives its k-th argument. */
  lemma CallGivesArgument(fuel: nat, f: Val, args: Val, env: nat, s: State, k: nat)
    requires fuel > 0 && f.Closure? && IsProper(args)
    requires var names := Elems(f.params);
             && Sym(SRest) !in names && k < |names| && names[k] !in names[k + 1..] && names[k].Sym?
             && Elems(f.body) == [names[k]]
    ensures var o := ApplyFunction(fuel, f, args, env, s);
            o.Done? && o.val == if |Elems(args)| == |Elems(f.params)| then Elems(args)[k] else Raise(Arity, Nil)
  {
    var names, inner, n := Elems(f.params), NewFrame(s.store, f.scope), |s.store.envs|;
    ParametersBind(inner, f.params, args, n);
    ArityIs(args, |names|);
    var b := BindParams(inner, f.params, args, n);
    if b.ok {
      BoundAt(b.store.envs[n].vars, names, args, {}, k);
      RestOfProper(args, k);
      BodyGives(fuel, f.body, names[k], n, s.(store := b.store));
    }
  }

  /** A function whose body is its rest parameter gives the arguments from the n-th on. */
  lemma CallGivesRest(fuel: nat, f: Val, args: Val, env: nat, s: State, n: nat)
    requires fuel > 0 && f.Closure? && IsProper(args) && RestAt(Elems(f.params), n)
    requires RestName(Elems(f.params), n).Sym? && Elems(f.body) == [RestName(Elems(f.params), n)]
    ensures var o := ApplyFunction(fuel, f, args, env, s);
            && o.Done?
            && if n <= |Elems(args)| then Elems(o.val) == Elems(args)[n..] else o.val == Raise(Arity, Nil)
  {
    var r, inner, at := RestName(Elems(f.params), n), NewFrame(s.store, f.scope), |s.store.envs|;
    RestParameterBinds(inner, f.params, args, at, n);
    EnoughIs(args, n);
    var b := BindParams(inner, f.params, args, at);
    if b.ok {
      RestOfProper(args, n);
      BodyGives(fuel, f.body, r, at, s.(store := b.store));
    }
  }

  lemma BodyGives(fuel: nat, body: Val, x: Val, env: nat, s: State)
    requires fuel > 0 && Elems(body) == [x] && x.Sym? && env < |s.store.envs| && x in s.store.envs[env].vars
    ensures EvalProgn(fuel, body, env, s) == Done(s.store.envs[env].vars[x], s)
  {
    FewerElems(body);
    assert Elems(body.cdr) == Elems(body)[1..] == [] && body.car == Elems(body)[0];
    assert !body.cdr.Cons?;
    assert OsEval(fuel, x, env, s) == Done(s.store.envs[env].vars[x], s);
  }

  lemma {:induction false} EnoughIs(args: Val, n: nat)
    requires IsProper(args)
    ensures Enough(args, n) <==> n <= |Elems(args)|
  {
    forall k | 0 <= k < n ensures Rest(args, k) == Nil <==> |Elems(args)| <= k { RestOfProper(args, k); }
    if Enough(args, n) && n > 0 { assert Rest(args, n - 1) != Nil; }
  }

  lemma ArityIs(args: Val, n: nat)
    requires IsProper(args)
    ensures Enough(args, n) && Rest(args, n) == Nil <==> |Elems(args)| == n
  {
    EnoughIs(args, n);
    RestOfProper(args, n);
  }

  // ---------------------------------------------------------------- scopes

  /** An environment and those around it, from the inside out. */
  function Chain(envs: seq<Env>, env: nat): seq<nat>
    decreases env
  {
    if env >= |envs| then []
    else if envs[env].parent.Some? && envs[env].parent.value < env then [env] + Chain(envs, envs[env].parent.value)
    else [env]
  }

  function BindsVariable(envs: seq<Env>, sym: Val): nat -> bool { (i: nat) => i < |envs| && sym in envs[i].vars }

  function BindsFunction(envs: seq<Env>, sym: Val): nat -> bool { (i: nat) => i < |envs| && sym in envs[i].funs }

  function Lasts(envs: seq<Env>): nat -> bool { (i: nat) => i < |envs| && !envs[i].frame }

  /** `found` is the first environment of the chain that satisfies a test. */
  ghost predicate First(chain: seq<nat>, test: nat -> bool, found: Option<nat>) {
    match found
    case None => forall i :: 0 <= i < |chain| ==> !test(chain[i])
    case Some(at) =>
      exists j :: 0 <= j < |chain| && chain[j] == at && test(at) && forall i :: 0 <= i < j ==> !test(chain[i])
  }

  lemma FirstAround(env: nat, outer: seq<nat>, test: nat -> bool, found: Option<nat>)
    requires if test(env) then found == Some(env) else First(outer, test, found)
    ensures First([env] + outer, test, found)
  {
    var chain := [env] + outer;
    assert chain[0] == env && forall i :: 1 <= i < |chain| ==> chain[i] == outer[i - 1];
    if !test(env) && found.Some? {
      var j :| 0 <= j < |outer| && outer[j] == found.value && forall i :: 0 <= i < j ==> !test(outer[i]);
      assert chain[j + 1] == found.value;
    }
  }

  /** Variables and functions are looked up from the inside out, and a definition goes to the nearest
      environment that is no call frame. */
  lemma {:induction false} LookedUpInsideOut(envs: seq<Env>, sym: Val, env: nat)
    ensures First(Chain(envs, env), BindsVariable(envs, sym), FindVariable(envs, sym, env))
    ensures First(Chain(envs, env), BindsFunction(envs, sym), FindFunction(envs, sym, env))
    ensures First(Chain(envs, env), Lasts(envs), Some(Owner(envs, env)))
            || (First(Chain(envs, env), Lasts(envs), None) && Owner(envs, env) == GLOBAL)
    decreases env
  {
    var inVars, inFuns, own := BindsVariable(envs, sym), BindsFunction(envs, sym), Lasts(envs);
    if env < |envs| {
      var up := envs[env].parent;
      var outer := if up.Some? && up.value < env then Chain(envs, up.value) else [];
      assert Chain(envs, env) == [env] + outer;
      if up.Some? && up.value < env {
        LookedUpInsideOut(envs, sym, up.value);
        FirstAround(env, outer, own,
                    if !envs[env].frame then Some(env)
                    else if First(outer, own, Some(Owner(envs, up.value))) then Some(Owner(envs, up.value)) else None);
      } else {
        FirstAround(env, outer, own, if envs[env].frame then None else Some(env));
      }
      FirstAround(env, outer, inVars, FindVariable(envs, sym, env));
      FirstAround(env, outer, inFuns, FindFunction(envs, sym, env));
    }
  }

  lemma MarkedHere(st: Store, sym: Val, owner: nat, x: Val, env: nat)
    requires owner < |st.envs|
    ensures var after := MarkConstant(st, sym, owner).envs;
            && |after| == |st.envs|
            && (env < |st.envs| ==>
                  && after[env].parent == st.envs[env].parent
                  && (x in after[env].consts <==> x in st.envs[env].consts || (x == sym && env == owner)))
  {
  }

  /** A constant is one exactly where its environment is in the chain. */
  lemma {:induction false} ConstantWhereMarked(st: Store, sym: Val, owner: nat, x: Val, env: nat)
    requires owner < |st.envs|
    ensures IsConstant(MarkConstant(st, sym, owner).envs, x, env)
            <==> IsConstant(st.envs, x, env) || (x == sym && owner in Chain(st.envs, env))
    decreases env
  {
    MarkedHere(st, sym, owner, x, env);
    var up := if env < |st.envs| then st.envs[env].parent else None;
    if up.Some? && up.value < env { ConstantWhereMarked(st, sym, owner, x, up.value); }
  }

  // ---------------------------------------------------------------- assignment

  /** Setting a variable where it is bound moves no binding. */
  lemma {:induction false} SameBindings(st: Store, sym: Val, v: Val, at: nat, x: Val, env: nat)
    requires at < |st.envs| && (sym in st.envs[at].vars || x != sym)
    ensures FindVariable(SetVariable(st, sym, v, at).envs, x, env) == FindVariable(st.envs, x, env)
    decreases env
  {
    if env < |st.envs| && st.envs[env].parent.Some? && st.envs[env].parent.value < env {
      SameBindings(st, sym, v, at, x, st.envs[env].parent.value);
    }
  }

  /** setq gives the variable its value where it is visible: in every environment that sees the same
      binding, and in no other. */
  lemma AssignmentIsSeen(st: Store, sym: Val, v: Val, env: nat, x: Val, e: nat)
    requires env < |st.envs|
    ensures var after := SetqVariable(st, sym, v, env);
            && Variable(after, sym, env) == v
            && (x != sym ==> VariableIn(after.envs, x, e) == VariableIn(st.envs, x, e))
            && (FindVariable(st.envs, sym, env).Some? ==>
                  VariableIn(after.envs, sym, e) ==
                  if FindVariable(st.envs, sym, e) == FindVariable(st.envs, sym, env) then Some(v)
                  else VariableIn(st.envs, sym, e))
  {
    FoundVariable(st.envs, sym, env);
    FoundVariable(st.envs, sym, e);
    FoundVariable(st.envs, x, e);
    var found := FindVariable(st.envs, sym, env);
    var at := if found.Some? then found.value else env;
    if found.Some? {
      SameBindings(st, sym, v, at, sym, env);
      SameBindings(st, sym, v, at, sym, e);
    }
    if x != sym { SameBindings(st, sym, v, at, x, e); }
  }

  // ---------------------------------------------------------------- local functions

  /** The closure that a binding (name parameters . body) makes in a scope. */
  predicate IsLocal(f: Val, b: Val, scope: nat) {
    f.Closure? && f.params == Car(Cdr(b)) && f.body == Cdr(Cdr(b)) && f.scope == scope
  }

  /** flet and labels bind each name to its own parameters and body, the last of equal names counting. */
  lemma {:induction false} LocalsBind(st: Store, bindings: Val, scope: nat, target: nat, k: nat)
    requires target < |st.envs| && k < |Elems(bindings)|
    requires forall j :: k < j < |Elems(bindings)| ==> Car(Elems(bindings)[j]) != Car(Elems(bindings)[k])
    ensures var after, b := BindFunctions(st, bindings, scope, target), Elems(bindings)[k];
            && target < |after.envs| && Car(b) in after.envs[target].funs
            && IsLocal(after.envs[target].funs[Car(b)], b, scope)
    decreases bindings
  {
    FewerElems(bindings);
    var first := bindings.car;
    var f := MkClosure(st, Car(Cdr(first)), Cdr(Cdr(first)), scope);
    var next := SetFunction(f.store, Car(first), f.val, target);
    if k == 0 {
      forall j | 0 <= j < |Elems(bindings.cdr)| ensures Car(Elems(bindings.cdr)[j]) != Car(first) {
        assert Elems(bindings)[j + 1] == Elems(bindings.cdr)[j];
      }
      OthersStay(next, bindings.cdr, scope, target, Car(first));
    } else {
      forall j | k - 1 < j < |Elems(bindings.cdr)|
        ensures Car(Elems(bindings.cdr)[j]) != Car(Elems(bindings.cdr)[k - 1])
      {
        assert Elems(bindings)[j + 1] == Elems(bindings.cdr)[j] && Elems(bindings)[k] == Elems(bindings.cdr)[k - 1];
      }
      LocalsBind(next, bindings.cdr, scope, target, k - 1);
    }
  }

  lemma {:induction false} OthersStay(st: Store, bindings: Val, scope: nat, target: nat, name: Val)
    requires target < |st.envs| && name in st.envs[target].funs
    requires forall j :: 0 <= j < |Elems(bindings)| ==> Car(Elems(bindings)[j]) != name
    ensures var after := BindFunctions(st, bindings, scope, target);
            && target < |after.envs| && name in after.envs[target].funs
            && after.envs[target].funs[name] == st.envs[target].funs[name]
    decreases bindings
  {
    if bindings.Cons? {
      FewerElems(bindings);
      assert Elems(bindings)[0] == bindings.car;
      forall j | 0 <= j < |Elems(bindings.cdr)| ensures Car(Elems(bindings.cdr)[j]) != name {
        assert Elems(bindings)[j + 1] == Elems(bindings.cdr)[j];
      }
      var b := bindings.car;
      var f := MkClosure(st, Car(Cdr(b)), Cdr(Cdr(b)), scope);
      OthersStay(SetFunction(f.store, Car(b), f.val, target), bindings.cdr, scope, target, name);
    }
  }

  /** Inside a local function of labels its own name is visible, inside one of flet it is not. */
  lemma LocalScopes(st: Store, bindings: Val, env: nat, recursive: bool, k: nat)
    requires k < |Elems(bindings)|
    requires forall j :: k < j < |Elems(bindings)| ==> Car(Elems(bindings)[j]) != Car(Elems(bindings)[k])
    ensures var inner := |st.envs|;
            var scope := if recursive then inner else env;
            var after, b := BindFunctions(NewFrame(st, env), bindings, scope, inner), Elems(bindings)[k];
            IsLocal(FunctionOf(after, Car(b), inner), b, scope)
  {
    var inner := |st.envs|;
    LocalsBind(NewFrame(st, env), bindings, if recursive then inner else env, inner, k);
  }

  // ---------------------------------------------------------------- definitions

  lemma {:induction false} OwnerStays(envs: seq<Env>, more: Env, env: nat)
    requires env < |envs|
    ensures Owner(envs + [more], env) == Owner(envs, env)
    decreases env
  {
    var up := envs[env].parent;
    if envs[env].frame && up.Some? && up.value < env { OwnerStays(envs, more, up.value); }
  }

  /** A definition made in a call goes where one made by the function's surroundings would go. */
  lemma DefinitionsOutliveCalls(st: Store, scope: nat)
    requires scope < |st.envs|
    ensures Owner(NewFrame(st, scope).envs, |st.envs|) == Owner(st.envs, scope)
  {
    OwnerStays(st.envs, Env(true, map[], map[], {}, Some(scope)), scope);
  }

  /** defun and defmacro give the name its parameters and body, in the scope of the definition. */
  lemma DefinitionIsMade(args: Val, env: nat, s: State)
    requires Owner(s.store.envs, env) < |s.store.envs|
    ensures var o, m, at := EvalDefun(args, env, s), EvalDefmacro(args, env, s), Owner(s.store.envs, env);
            && o.Done? && o.val == m.val == Car(args)
            && IsLocal(FunctionOf(o.state.store, Car(args), at), Cons(0, Car(args), Cdr(args)), env)
            && var f := FunctionOf(m.state.store, Car(args), at);
               f.Macro? && f.params == Car(Cdr(args)) && f.body == Cdr(Cdr(args)) && f.scope == env
  {
  }

  /** A dynamic variable keeps what it was given until it is given something else. */
  lemma DynamicKeeps(st: Store, x: Val, v: Val, y: Val)
    ensures Dynamic(SetDynamic(st, x, v), y) == if y == x then v else Dynamic(st, y)
  {
  }
}
