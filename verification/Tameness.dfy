/** Programs on which eval.c and ISLISP agree, told from their text and the store they start in.

    A program is tame when its operators are symbols or lambda forms, its blocks have names of a set
    that its catch and go tags are not in, the unquotes of its templates are literals, quotations
    and parameters of the functions around them, the forms of a tagbody give no instances, and it
    has no macros. */
module Tameness {
  import opened Lisp
  import opened Machine
  import opened Discipline

  /** The names of blocks, and for each environment variables that are bound in it or around it. */
  datatype Names = Names(blocks: set<Val>, bound: map<nat, set<Val>>)

  function At(names: Names, env: nat): set<Val> {
    if env in names.bound then names.bound[env] else {}
  }

  ghost predicate Extends(later: Names, names: Names) {
    later.blocks == names.blocks && forall env :: At(names, env) <= At(later, env)
  }

  /** What a call binds for a lambda list. */
  function Params(params: Val): set<Val> {
    if !params.Cons? then {}
    else if params.car == Sym(SRest) then {Car(params.cdr)}
    else {params.car} + Params(params.cdr)
  }

  // ---------------------------------------------------------------- tame forms and values

  predicate LambdaForm(e: Val) { e.Cons? && e.car == Sym(SLambda) }

  predicate Quoted(e: Val) { e.Cons? && e.car == Sym(SQuote) }

  /** A form whose evaluation cannot exit where `bound` is bound. */
  predicate Safe(e: Val, bound: set<Val>) { e.Nil? || e.Atom? || Quoted(e) || (e.Sym? && e in bound) }

  /** A quoted tag that is no block name. */
  predicate SafeTag(e: Val, names: Names) { Quoted(e) && Car(e.cdr) !in names.blocks }

  /** A form that gives no instance, if it gives a value at all. */
  predicate Quiet(e: Val)
    decreases e, 0
  {
    e.Nil? || e.Atom? || (e.Cons? && e.car.Sym? && QuietNamed(e.car.name, e.cdr))
  }

  predicate QuietNamed(op: Name, args: Val)
    decreases args, 1
  {
    match op
    case SQuote => !IsInstance(Car(args))
    case SDefun => !IsInstance(Car(args))
    case SDefvar => !IsInstance(Car(args))
    case SDefconstant => !IsInstance(Car(args))
    case SDefdynamic => !IsInstance(Car(args))
    case SDefglobal => !IsInstance(Car(args))
    case SDeclaim => true
    case SDeclare => true
    case SGo => true
    case SThrow => true
    case SReturnFrom => true
    case STagbody => true
    case SSetq => args.Cons? && args.cdr.Cons? ==> Quiet(args.cdr.car)
    case SUnwindProtect => args.Cons? ==> Quiet(args.car)
    case SIf => args.Cons? && args.cdr.Cons? && Quiet(args.cdr.car) && (args.cdr.cdr.Cons? ==> Quiet(args.cdr.cdr.car))
    case SProgn => QuietLast(args)
    case _ => false
  }

  predicate QuietLast(body: Val)
    decreases body, 0
  {
    body.Cons? ==> if body.cdr.Cons? then QuietLast(body.cdr) else Quiet(body.car)
  }

  /** The unquotes of a template are safe. */
  predicate SafeTemplate(t: Template, bound: set<Val>) {
    match t
    case Constant(_) => true
    case Unquoted(e) => Safe(e, bound)
    case Pairing(h, u) => SafeTemplate(h, bound) && SafeTemplate(u, bound)
    case Splicing(h, u) => SafeTemplate(h, bound) && SafeTemplate(u, bound)
  }

  /** Values with tame function bodies, without exits and macros. */
  predicate TameVal(v: Val, names: Names)
    decreases v, 0
  {
    match v
    case Cons(_, a, b) => TameVal(a, names) && TameVal(b, names)
    case Closure(_, params, body, scope) => TameAll(body, At(names, scope) + Params(params), names)
    case Macro(_, _, _, _) => false
    case Condition(_, c) => TameVal(c, names)
    case _ => !IsExit(v)
  }

  predicate Tame(e: Val, bound: set<Val>, names: Names)
    decreases e, 1
  {
    match e
    case Cons(_, op, args) =>
      if op.Sym? then TameNamed(op.name, args, bound, names)
      else LambdaForm(op) && TameNamed(SLambda, op.cdr, bound, names) && TameAll(args, bound, names)
    case _ => TameVal(e, names)
  }

  predicate TameAll(list: Val, bound: set<Val>, names: Names)
    decreases list, 1
  {
    list.Cons? ==> Tame(list.car, bound, names) && TameAll(list.cdr, bound, names)
  }

  /** All elements of a list but the first n are tame. */
  predicate TameFrom(n: nat, list: Val, bound: set<Val>, names: Names)
    decreases list, 2
  {
    if n == 0 then TameAll(list, bound, names) else list.Cons? ==> TameFrom(n - 1, list.cdr, bound, names)
  }

  /** A name or datum and then forms. */
  predicate TameTail(args: Val, bound: set<Val>, names: Names)
    decreases args, 3
  {
    (args.Cons? ==> TameVal(args.car, names)) && TameFrom(1, args, bound, names)
  }

  predicate TameNamed(op: Name, args: Val, bound: set<Val>, names: Names)
    decreases args, 4
  {
    match op
    case SQuote => args.Cons? ==> TameVal(args.car, names)
    case SSetq => TameFrom(1, args, bound, names)
    case SDefun =>
      (args.Cons? ==> TameVal(args.car, names)) && TameFrom(2, args, bound + Params(Car(Cdr(args))), names)
    case SLambda => TameFrom(1, args, bound + Params(Car(args)), names)
    case SDefmacro => false
    case SQuasiquote =>
      args.Cons? ==> TameVal(args.car, names) && SafeTemplate(Compile(args.car, 0), bound)
    case SBlock => Car(args) in names.blocks && TameFrom(1, args, bound, names)
    case SReturnFrom => TameFrom(1, args, bound, names)
    case SFunction => if Car(args).Sym? then true else TameAll(args, bound, names)
    case SDeclaim => true
    case SDeclare => true
    case SDynamic => true
    case SFlet => (args.Cons? ==> TameBindings(args.car, bound, names)) && TameFrom(1, args, bound, names)
    case SLabels => (args.Cons? ==> TameBindings(args.car, bound, names)) && TameFrom(1, args, bound, names)
    case SDefvar => TameTail(args, bound, names)
    case SDefconstant => TameTail(args, bound, names)
    case SDefdynamic => TameTail(args, bound, names)
    case SDefglobal => TameTail(args, bound, names)
    case SThrow => SafeTag(Car(args), names) && TameAll(args, bound, names)
    case STagbody => TameForms(args, bound, names)
    case SGo => Car(args) !in names.blocks
    case _ => TameAll(args, bound, names)
  }

  /** The bindings of flet and labels: (name parameters . body). */
  predicate TameBindings(list: Val, bound: set<Val>, names: Names)
    decreases list, 3
  {
    list.Cons? ==>
      TameFrom(2, list.car, bound + Params(Car(Cdr(list.car))), names) && TameBindings(list.cdr, bound, names)
  }

  predicate TameForm(e: Val, bound: set<Val>, names: Names)
    decreases e, 2
  {
    IsTag(e) || (Tame(e, bound, names) && Quiet(e))
  }

  predicate TameForms(list: Val, bound: set<Val>, names: Names)
    decreases list, 2
  {
    list.Cons? ==> TameForm(list.car, bound, names) && TameForms(list.cdr, bound, names)
  }

  /** Exits that meet no block by mistake. */
  predicate TameExit(x: Val, names: Names) {
    match x
    case BlockExit(_, v) => TameVal(v, names)
    case CatchExit(tag, v) => tag !in names.blocks && TameVal(v, names)
    case GoExit(tag) => tag !in names.blocks
    case _ => false
  }

  predicate TameTemplate(t: Template, bound: set<Val>, names: Names) {
    match t
    case Constant(v) => TameVal(v, names)
    case Unquoted(e) => Safe(e, bound) && Tame(e, bound, names)
    case Pairing(h, u) => TameTemplate(h, bound, names) && TameTemplate(u, bound, names)
    case Splicing(h, u) => TameTemplate(h, bound, names) && TameTemplate(u, bound, names)
  }

  // ---------------------------------------------------------------- tame stores

  ghost predicate TameMap(m: map<Val, Val>, names: Names) {
    forall k :: k in m ==> TameVal(m[k], names)
  }

  ghost predicate TameEnv(e: Env, names: Names) { TameMap(e.vars, names) && TameMap(e.funs, names) }

  ghost predicate TameValues(st: Store, names: Names) {
    && (forall i :: 0 <= i < |st.envs| ==> TameEnv(st.envs[i], names))
    && TameMap(st.dyn, names)
    && (forall q :: q in st.library ==> TameVal(st.library[q], names) || TameExit(st.library[q], names))
  }

  /** The variables that are to be bound are. */
  ghost predicate Visible(envs: seq<Env>, names: Names) {
    forall env, x :: x in At(names, env) ==> FindVariable(envs, x, env).Some?
  }

  ghost predicate TameStore(st: Store, names: Names) { TameValues(st, names) && Visible(st.envs, names) }

  // ---------------------------------------------------------------- tame stacks

  predicate TameFrame(f: Frame, names: Names) {
    match f
    case KOperator(args, env) => TameAll(args, At(names, env), names)
    case KArg(g, done, rest, env) =>
      && TameVal(g, names) && (forall i :: 0 <= i < |done| ==> TameVal(done[i], names))
      && TameAll(rest, At(names, env), names)
    case KExpansion(_) => false
    case KProgn(rest, env) => TameAll(rest, At(names, env), names)
    case KIf(a, rest, env) => Tame(a, At(names, env), names) && TameAll(rest, At(names, env), names)
    case KSetq(_, _) => true
    case KDefine(_, s, _) => TameVal(s, names)
    case KBlock(n) => n in names.blocks
    case KReturnFrom(_) => true
    case KProtect(c, env) => TameAll(c, At(names, env), names)
    case KCleanup(r) => TameVal(r, names) || TameExit(r, names)
    case KCatchTag(b, env) => TameAll(b, At(names, env), names)
    case KCatch(_) => true
    case KThrowTag(e, env) => Tame(e, At(names, env), names)
    case KThrow(t) => t !in names.blocks
    case KTagbody(forms, _, env) => forall i :: 0 <= i < |forms| ==> TameForm(forms[i], At(names, env), names)
    case KHead(_, tail, env) => TameTemplate(tail, At(names, env), names)
    case KTail(_, h) => TameVal(h, names)
  }

  /** The value goes to a tagbody as it is. */
  predicate Wants(k: Stack) {
    k.Push? && (k.top.KTagbody? || ((k.top.KSetq? || k.top.KProtect?) && Wants(k.rest)))
  }

  /** Frames that give a tagbody only values that are no instances. */
  predicate QuietFrame(f: Frame) {
    match f
    case KIf(a, rest, _) => Quiet(a) && Quiet(Car(rest))
    case KProgn(rest, _) => QuietLast(rest)
    case KSetq(_, _) => true
    case KDefine(_, s, _) => !IsInstance(s)
    case KReturnFrom(_) => true
    case KProtect(_, _) => true
    case KCleanup(r) => IsExit(r) || !IsInstance(r)
    case KThrowTag(_, _) => true
    case KThrow(_) => true
    case KTagbody(_, _, _) => true
    case _ => false
  }

  /** What frame `f` gives is fit for the stack below it; the bottom frame is the block %TOP-LEVEL. */
  predicate Fits(f: Frame, k: Stack) {
    if k.Bottom? then f == KBlock(Sym(STopLevel))
    else (Wants(k) ==> QuietFrame(f)) && !k.top.KThrowTag?
  }

  /** Tame frames, none of which goes on with whatever it gets. */
  predicate Clean(k: Stack, names: Names) {
    match k
    case Bottom => true
    case Push(f, rest) => !Unguarded(f) && TameFrame(f, names) && Fits(f, rest) && Clean(rest, names)
  }

  /** The same below an operator position or the frames of one template. */
  predicate Mixed(k: Stack, names: Names) {
    Clean(k, names) || (
      && k.Push? && Unguarded(k.top) && TameFrame(k.top, names) && Fits(k.top, k.rest)
      && if k.top.KOperator? then Clean(k.rest, names) && k.rest.Push? else Mixed(k.rest, names) && k.rest.Push?)
  }

  predicate FormFits(e: Val, env: nat, k: Stack, names: Names) {
    && k.Push? && (Wants(k) ==> Quiet(e))
    && match k.top
       case KOperator(_, _) => LambdaForm(e)
       case KHead(_, _, _) => Safe(e, At(names, env))
       case KTail(_, _) => Safe(e, At(names, env))
       case KThrowTag(_, _) => SafeTag(e, names)
       case _ => true
  }

  predicate ValueFits(v: Val, k: Stack, names: Names) {
    TameVal(v, names) && (k.Push? && k.top.KThrowTag? ==> v !in names.blocks) && (Wants(k) ==> !IsInstance(v))
  }

  /** Any value is fit for this stack. */
  predicate Open(k: Stack, names: Names) {
    Clean(k, names) && k.Push? && !k.top.KThrowTag? && !Wants(k)
  }

  ghost predicate Good(c: Config, names: Names) {
    && TameStore(c.st, names) && Mixed(c.k, names)
    && match c
       case Ev(e, env, k, _) => Tame(e, At(names, env), names) && FormFits(e, env, k, names)
       case Ret(v, k, _) => ValueFits(v, k, names) || (TameExit(v, names) && k.Bottom?)
  }

  ghost predicate GoodAction(a: Action, names: Names) {
    match a
    case Go(c) => Good(c, names)
    case Give(v, k, st) =>
      TameStore(st, names) && Mixed(k, names) && (ValueFits(v, k, names) || (TameExit(v, names) && Clean(k, names)))
    case FormDone(v, f, k, st) =>
      && TameStore(st, names) && Clean(k, names) && TameVal(v, names) && !IsInstance(v)
      && f.KTagbody? && TameFrame(f, names) && Fits(f, k)
  }

  // ---------------------------------------------------------------- more variables bound

  lemma {:induction false} SafeLater(t: Template, b: set<Val>, c: set<Val>)
    requires SafeTemplate(t, b) && b <= c
    ensures SafeTemplate(t, c)
  {
    if t.Pairing? || t.Splicing? {
      SafeLater(t.head, b, c);
      SafeLater(t.tail, b, c);
    }
  }

  /** What is tame stays so when more variables are bound. */
  lemma {:induction false} ValLater(v: Val, names: Names, later: Names)
    requires TameVal(v, names) && Extends(later, names)
    ensures TameVal(v, later)
    decreases v, 0
  {
    if v.Cons? {
      ValLater(v.car, names, later);
      ValLater(v.cdr, names, later);
    } else if v.Closure? {
      AllLater(v.body, At(names, v.scope) + Params(v.params), At(later, v.scope) + Params(v.params), names, later);
    } else if v.Condition? {
      ValLater(v.culprit, names, later);
    }
  }

  lemma {:induction false} FormLater(e: Val, b: set<Val>, c: set<Val>, names: Names, later: Names)
    requires Tame(e, b, names) && b <= c && Extends(later, names)
    ensures Tame(e, c, later)
    decreases e, 1
  {
    if e.Cons? {
      if e.car.Sym? {
        NamedLater(e.car.name, e.cdr, b, c, names, later);
      } else {
        NamedLater(SLambda, e.car.cdr, b, c, names, later);
        AllLater(e.cdr, b, c, names, later);
      }
    } else {
      ValLater(e, names, later);
    }
  }

  lemma {:induction false} AllLater(list: Val, b: set<Val>, c: set<Val>, names: Names, later: Names)
    requires TameAll(list, b, names) && b <= c && Extends(later, names)
    ensures TameAll(list, c, later)
    decreases list, 1
  {
    if list.Cons? {
      FormLater(list.car, b, c, names, later);
      AllLater(list.cdr, b, c, names, later);
    }
  }

  lemma {:induction false} FromLater(n: nat, list: Val, b: set<Val>, c: set<Val>, names: Names, later: Names)
    requires TameFrom(n, list, b, names) && b <= c && Extends(later, names)
    ensures TameFrom(n, list, c, later)
    decreases list, 2
  {
    if n == 0 {
      AllLater(list, b, c, names, later);
    } else if list.Cons? {
      FromLater(n - 1, list.cdr, b, c, names, later);
    }
  }

  lemma {:induction false} TailLater(args: Val, b: set<Val>, c: set<Val>, names: Names, later: Names)
    requires TameTail(args, b, names) && b <= c && Extends(later, names)
    ensures TameTail(args, c, later)
    decreases args, 3
  {
    if args.Cons? { ValLater(args.car, names, later); }
    FromLater(1, args, b, c, names, later);
  }

  lemma {:induction false} NamedLater(op: Name, args: Val, b: set<Val>, c: set<Val>, names: Names, later: Names)
    requires TameNamed(op, args, b, names) && b <= c && Extends(later, names)
    ensures TameNamed(op, args, c, later)
    decreases args, 4
  {
    match op
    case SQuote => if args.Cons? { ValLater(args.car, names, later); }
    case SSetq => FromLater(1, args, b, c, names, later);
    case SDefun =>
      if args.Cons? { ValLater(args.car, names, later); }
      FromLater(2, args, b + Params(Car(Cdr(args))), c + Params(Car(Cdr(args))), names, later);
    case SLambda => FromLater(1, args, b + Params(Car(args)), c + Params(Car(args)), names, later);
    case SDefmacro =>
    case SQuasiquote =>
      if args.Cons? {
        ValLater(args.car, names, later);
        SafeLater(Compile(args.car, 0), b, c);
      }
    case SBlock => FromLater(1, args, b, c, names, later);
    case SReturnFrom => FromLater(1, args, b, c, names, later);
    case SFunction => if !Car(args).Sym? { AllLater(args, b, c, names, later); }
    case SDeclaim =>
    case SDeclare =>
    case SDynamic =>
    case SFlet => LocalLater(args, b, c, names, later);
    case SLabels => LocalLater(args, b, c, names, later);
    case SDefvar => TailLater(args, b, c, names, later);
    case SDefconstant => TailLater(args, b, c, names, later);
    case SDefdynamic => TailLater(args, b, c, names, later);
    case SDefglobal => TailLater(args, b, c, names, later);
    case STagbody => FormsLater(args, b, c, names, later);
    case SGo =>
    case _ => AllLater(args, b, c, names, later);
  }

  lemma {:induction false} LocalLater(args: Val, b: set<Val>, c: set<Val>, names: Names, later: Names)
    requires (args.Cons? ==> TameBindings(args.car, b, names)) && TameFrom(1, args, b, names)
    requires b <= c && Extends(later, names)
    ensures (args.Cons? ==> TameBindings(args.car, c, later)) && TameFrom(1, args, c, later)
    decreases args, 3
  {
    if args.Cons? { BindingsLater(args.car, b, c, names, later); }
    FromLater(1, args, b, c, names, later);
  }

  lemma {:induction false} BindingsLater(list: Val, b: set<Val>, c: set<Val>, names: Names, later: Names)
    requires TameBindings(list, b, names) && b <= c && Extends(later, names)
    ensures TameBindings(list, c, later)
    decreases list, 3
  {
    if list.Cons? {
      var params := Params(Car(Cdr(list.car)));
      FromLater(2, list.car, b + params, c + params, names, later);
      BindingsLater(list.cdr, b, c, names, later);
    }
  }

  lemma {:induction false} FormsLater(list: Val, b: set<Val>, c: set<Val>, names: Names, later: Names)
    requires TameForms(list, b, names) && b <= c && Extends(later, names)
    ensures TameForms(list, c, later)
    decreases list, 2
  {
    if list.Cons? {
      if !IsTag(list.car) { FormLater(list.car, b, c, names, later); }
      FormsLater(list.cdr, b, c, names, later);
    }
  }

  lemma {:induction false} TemplateLater(t: Template, b: set<Val>, c: set<Val>, names: Names, later: Names)
    requires TameTemplate(t, b, names) && b <= c && Extends(later, names)
    ensures TameTemplate(t, c, later)
  {
    match t
    case Constant(v) => ValLater(v, names, later);
    case Unquoted(e) => FormLater(e, b, c, names, later);
    case Pairing(h, u) =>
      TemplateLater(h, b, c, names, later);
      TemplateLater(u, b, c, names, later);
    case Splicing(h, u) =>
      TemplateLater(h, b, c, names, later);
      TemplateLater(u, b, c, names, later);
  }

  lemma ExitLater(x: Val, names: Names, later: Names)
    requires TameExit(x, names) && Extends(later, names)
    ensures TameExit(x, later)
  {
    if !x.GoExit? { ValLater(x.value, names, later); }
  }

  lemma FrameLater(f: Frame, names: Names, later: Names)
    requires TameFrame(f, names) && Extends(later, names)
    ensures TameFrame(f, later)
  {
    match f
    case KOperator(args, env) => AllLater(args, At(names, env), At(later, env), names, later);
    case KArg(g, done, rest, env) =>
      ValLater(g, names, later);
      forall i | 0 <= i < |done| ensures TameVal(done[i], later) { ValLater(done[i], names, later); }
      AllLater(rest, At(names, env), At(later, env), names, later);
    case KProgn(rest, env) => AllLater(rest, At(names, env), At(later, env), names, later);
    case KIf(a, rest, env) =>
      FormLater(a, At(names, env), At(later, env), names, later);
      AllLater(rest, At(names, env), At(later, env), names, later);
    case KDefine(_, s, _) => ValLater(s, names, later);
    case KProtect(c, env) => AllLater(c, At(names, env), At(later, env), names, later);
    case KCleanup(r) => if TameVal(r, names) { ValLater(r, names, later); } else { ExitLater(r, names, later); }
    case KCatchTag(b, env) => AllLater(b, At(names, env), At(later, env), names, later);
    case KThrowTag(e, env) => FormLater(e, At(names, env), At(later, env), names, later);
    case KTagbody(forms, _, env) =>
      forall i | 0 <= i < |forms| ensures TameForm(forms[i], At(later, env), later) {
        assert TameForm(forms[i], At(names, env), names);
        if !IsTag(forms[i]) { FormLater(forms[i], At(names, env), At(later, env), names, later); }
      }
    case KHead(_, tail, env) => TemplateLater(tail, At(names, env), At(later, env), names, later);
    case KTail(_, h) => ValLater(h, names, later);
    case _ =>
  }

  lemma {:induction false} CleanLater(k: Stack, names: Names, later: Names)
    requires Clean(k, names) && Extends(later, names)
    ensures Clean(k, later)
  {
    if k.Push? {
      FrameLater(k.top, names, later);
      CleanLater(k.rest, names, later);
    }
  }

  lemma MapLater(m: map<Val, Val>, names: Names, later: Names)
    requires TameMap(m, names) && Extends(later, names)
    ensures TameMap(m, later)
  {
    forall k | k in m ensures TameVal(m[k], later) { ValLater(m[k], names, later); }
  }

  lemma ValuesLater(st: Store, names: Names, later: Names)
    requires TameValues(st, names) && Extends(later, names)
    ensures TameValues(st, later)
  {
    forall i | 0 <= i < |st.envs| ensures TameEnv(st.envs[i], later) {
      MapLater(st.envs[i].vars, names, later);
      MapLater(st.envs[i].funs, names, later);
    }
    MapLater(st.dyn, names, later);
    forall q | q in st.library ensures TameVal(st.library[q], later) || TameExit(st.library[q], later) {
      if TameVal(st.library[q], names) {
        ValLater(st.library[q], names, later);
      } else {
        ExitLater(st.library[q], names, later);
      }
    }
  }

  // ---------------------------------------------------------------- parts of forms and values

  lemma PartsTame(v: Val, names: Names)
    requires TameVal(v, names)
    ensures TameVal(Car(v), names) && TameVal(Cdr(v), names)
    ensures TameVal(Car(Cdr(v)), names) && TameVal(Cdr(Cdr(v)), names)
  {
    assert TameVal(Cdr(v), names);
  }

  lemma CarTame(list: Val, b: set<Val>, names: Names)
    requires TameAll(list, b, names)
    ensures Tame(Car(list), b, names) && TameAll(Cdr(list), b, names)
  {
  }

  lemma FromTame(list: Val, b: set<Val>, names: Names)
    ensures TameFrom(1, list, b, names) ==> TameAll(Cdr(list), b, names)
    ensures TameFrom(2, list, b, names) ==> TameAll(Cdr(Cdr(list)), b, names)
  {
    if list.Cons? {
      assert TameFrom(1, list, b, names) == TameFrom(0, list.cdr, b, names) == TameAll(list.cdr, b, names);
      assert TameFrom(2, list, b, names) == TameFrom(1, list.cdr, b, names);
      if list.cdr.Cons? { assert TameFrom(1, list.cdr, b, names) == TameFrom(0, list.cdr.cdr, b, names); }
    }
  }

  lemma SecondTame(list: Val, b: set<Val>, names: Names)
    requires TameFrom(1, list, b, names)
    ensures Tame(Car(Cdr(list)), b, names)
  {
    FromTame(list, b, names);
    CarTame(Cdr(list), b, names);
  }

  lemma {:induction false} FormsTame(list: Val, b: set<Val>, names: Names)
    requires TameForms(list, b, names)
    ensures forall i :: 0 <= i < |Elems(list)| ==> TameForm(Elems(list)[i], b, names)
  {
    if list.Cons? { FormsTame(list.cdr, b, names); }
  }

  lemma {:induction false} CompiledTame(form: Val, depth: nat, b: set<Val>, names: Names)
    requires TameVal(form, names) && SafeTemplate(Compile(form, depth), b)
    ensures TameTemplate(Compile(form, depth), b, names)
    decreases form, 1
  {
    if form.Cons? {
      PartsTame(form, names);
      if form.car == Sym(SQuasiquote) {
        RebuiltTame(SQuasiquote, Operand(form, depth + 1), b, names);
        OperandTame(form, depth + 1, b, names);
      } else if form.car == Sym(SUnquote) || form.car == Sym(SUnquoteSplicing) {
        if depth == 0 {
          SafeTame(Car(form.cdr), b, names);
        } else {
          RebuiltTame(form.car.name, Operand(form, depth - 1), b, names);
          OperandTame(form, depth - 1, b, names);
        }
      } else if form.car.Cons? && form.car.car == Sym(SUnquoteSplicing) {
        PartsTame(form.car, names);
        if depth == 0 {
          SafeTame(Car(form.car.cdr), b, names);
        } else {
          RebuiltTame(SUnquoteSplicing, Operand(form.car, depth - 1), b, names);
          OperandTame(form.car, depth - 1, b, names);
        }
        CompiledTame(form.cdr, depth, b, names);
      } else {
        CompiledTame(form.car, depth, b, names);
        CompiledTame(form.cdr, depth, b, names);
      }
    }
  }

  lemma {:induction false} OperandTame(form: Val, depth: nat, b: set<Val>, names: Names)
    requires form.Cons? && TameVal(form, names) && SafeTemplate(Operand(form, depth), b)
    ensures TameTemplate(Operand(form, depth), b, names)
    decreases form, 0
  {
    PartsTame(form, names);
    if form.cdr.Cons? { CompiledTame(form.cdr.car, depth, b, names); }
  }

  lemma RebuiltTame(op: Name, inner: Template, b: set<Val>, names: Names)
    ensures SafeTemplate(Rebuilt(op, inner), b) == SafeTemplate(inner, b)
    ensures TameTemplate(Rebuilt(op, inner), b, names) == TameTemplate(inner, b, names)
  {
    var tail := Pairing(inner, Constant(Nil));
    assert SafeTemplate(tail, b) == SafeTemplate(inner, b);
    assert TameTemplate(Constant(Nil), b, names) && TameTemplate(Constant(Sym(op)), b, names);
    assert TameTemplate(tail, b, names) == TameTemplate(inner, b, names);
  }

  lemma SafeTame(e: Val, b: set<Val>, names: Names)
    requires TameVal(e, names) && Safe(e, b)
    ensures Tame(e, b, names)
  {
    if e.Cons? { PartsTame(e, names); }
  }

  lemma RaiseTame(error: Error, culprit: Val, names: Names)
    requires TameVal(culprit, names)
    ensures TameExit(Raise(error, culprit), names)
  {
  }

  // ---------------------------------------------------------------- bound variables stay bound

  ghost predicate Grown(after: seq<Env>, before: seq<Env>) {
    && |before| <= |after|
    && forall i :: 0 <= i < |before| ==>
         after[i].parent == before[i].parent && before[i].vars.Keys <= after[i].vars.Keys
  }

  lemma {:induction false} FoundStays(after: seq<Env>, before: seq<Env>, x: Val, env: nat)
    requires Grown(after, before) && FindVariable(before, x, env).Some?
    ensures FindVariable(after, x, env).Some?
    decreases env
  {
    if x !in before[env].vars { FoundStays(after, before, x, before[env].parent.value); }
  }

  lemma StaysVisible(after: seq<Env>, before: seq<Env>, names: Names)
    requires Grown(after, before) && Visible(before, names)
    ensures Visible(after, names)
  {
    forall env, x | x in At(names, env) ensures FindVariable(after, x, env).Some? {
      FoundStays(after, before, x, env);
    }
  }

  /** The names when frame `n` is entered with `parent` around it. */
  function Inner(names: Names, n: nat, parent: nat, params: set<Val>): Names {
    names.(bound := names.bound[n := At(names, parent) + params])
  }

  /** A new frame and the variables bound in it are visible, and what is visible around it. */
  lemma InnerVisible(envs: seq<Env>, names: Names, n: nat, parent: nat, params: set<Val>)
    requires n < |envs| && Visible(envs, names) && envs[n].parent == Some(parent)
    requires At(names, parent) != {} ==> parent < n
    requires params <= envs[n].vars.Keys
    ensures Visible(envs, Inner(names, n, parent, params))
  {
  }

  // ---------------------------------------------------------------- store operations

  lemma LookupTame(st: Store, sym: Val, env: nat, names: Names)
    requires TameStore(st, names)
    ensures TameVal(FunctionOf(st, sym, env), names) && TameVal(Dynamic(st, sym), names)
    ensures if sym in At(names, env) then TameVal(Variable(st, sym, env), names)
            else TameVal(Variable(st, sym, env), names) || Variable(st, sym, env) == Raise(UnboundVariable, sym)
  {
    FoundVariable(st.envs, sym, env);
    FoundFunction(st.envs, sym, env);
    var at, f := FindVariable(st.envs, sym, env), FindFunction(st.envs, sym, env);
    if at.Some? { assert TameEnv(st.envs[at.value], names); }
    if f.Some? { assert TameEnv(st.envs[f.value], names); }
  }

  lemma SetVariableTame(st: Store, sym: Val, v: Val, env: nat, names: Names)
    requires TameStore(st, names) && TameVal(v, names)
    ensures var after := SetVariable(st, sym, v, env); TameStore(after, names) && Grown(after.envs, st.envs)
  {
    StaysVisible(SetVariable(st, sym, v, env).envs, st.envs, names);
  }

  lemma SetFunctionTame(st: Store, sym: Val, f: Val, env: nat, names: Names)
    requires TameStore(st, names) && TameVal(f, names)
    ensures TameStore(SetFunction(st, sym, f, env), names)
  {
    StaysVisible(SetFunction(st, sym, f, env).envs, st.envs, names);
  }

  lemma DefineTame(kind: Definition, sym: Val, v: Val, owner: nat, st: Store, names: Names)
    requires TameStore(st, names) && TameVal(v, names)
    ensures TameStore(Define(kind, sym, v, owner, st), names)
  {
    SetVariableTame(st, sym, v, owner, names);
    if kind.Defconstant? {
      StaysVisible(Define(kind, sym, v, owner, st).envs, SetVariable(st, sym, v, owner).envs, names);
    }
  }

  lemma {:induction false} BindParamsTame(st: Store, params: Val, args: Val, env: nat, names: Names)
    requires TameStore(st, names) && TameVal(args, names) && env < |st.envs|
    ensures var b := BindParams(st, params, args, env);
            && TameStore(b.store, names) && Grown(b.store.envs, st.envs)
            && (b.ok ==> Params(params) <= b.store.envs[env].vars.Keys)
    decreases params
  {
    if params.Cons? {
      if params.car == Sym(SRest) {
        SetVariableTame(st, Car(params.cdr), args, env, names);
      } else if args != Nil {
        SetVariableTame(st, params.car, Car(args), env, names);
        BindParamsTame(SetVariable(st, params.car, Car(args), env), params.cdr, Cdr(args), env, names);
      }
    }
  }

  lemma {:induction false} BindFunctionsTame(st: Store, bindings: Val, scope: nat, target: nat, names: Names)
    requires TameStore(st, names) && TameBindings(bindings, At(names, scope), names)
    ensures TameStore(BindFunctions(st, bindings, scope, target), names)
    decreases bindings
  {
    if bindings.Cons? {
      var b := bindings.car;
      FromTame(b, At(names, scope) + Params(Car(Cdr(b))), names);
      var f := MkClosure(st, Car(Cdr(b)), Cdr(Cdr(b)), scope);
      SetFunctionTame(f.store, Car(b), f.val, target, names);
      BindFunctionsTame(SetFunction(f.store, Car(b), f.val, target), bindings.cdr, scope, target, names);
    }
  }

  lemma NewFrameTame(st: Store, parent: nat, names: Names)
    requires TameStore(st, names)
    ensures TameStore(NewFrame(st, parent), names) && Grown(NewFrame(st, parent).envs, st.envs)
    ensures At(names, |st.envs|) == {} && (At(names, parent) != {} ==> parent < |st.envs|)
  {
    var inner := NewFrame(st, parent);
    forall i | 0 <= i < |inner.envs| ensures TameEnv(inner.envs[i], names) {
      if i < |st.envs| { assert inner.envs[i] == st.envs[i]; }
    }
    StaysVisible(inner.envs, st.envs, names);
    assert forall x :: x in At(names, |st.envs|) ==> FindVariable(st.envs, x, |st.envs|).Some?;
    assert forall x :: x in At(names, parent) ==> FindVariable(st.envs, x, parent).Some?;
  }

  lemma {:induction false} AppendTame(st: Store, list: Val, tail: Val, names: Names)
    requires TameStore(st, names) && TameVal(list, names) && TameVal(tail, names)
    ensures var m := Append(st, list, tail); TameVal(m.val, names) && TameStore(m.store, names)
    decreases list
  {
    if list.Cons? { AppendTame(st, list.cdr, tail, names); }
  }

  lemma {:induction false} ListedTame(vals: seq<Val>, tail: Val, st: Store, names: Names)
    requires TameStore(st, names) && TameVal(tail, names) && forall i :: 0 <= i < |vals| ==> TameVal(vals[i], names)
    ensures var m := Listed(vals, tail, st); TameVal(m.val, names) && TameStore(m.store, names)
  {
    if vals != [] { ListedTame(vals[1..], tail, st, names); }
  }

  // ---------------------------------------------------------------- the parts of a step

  lemma StartPrognTame(body: Val, env: nat, k: Stack, st: Store, names: Names)
    requires TameAll(body, At(names, env), names) && Clean(k, names) && k.Push? && TameStore(st, names)
    requires !k.top.KThrowTag? && (Wants(k) ==> QuietLast(body))
    ensures Good(StartProgn(body, env, k, st), names)
  {
    if body.Cons? && body.cdr.Cons? { assert Clean(Push(KProgn(body.cdr, env), k), names); }
  }

  lemma RunTagbodyTame(forms: seq<Val>, pc: nat, env: nat, k: Stack, st: Store, names: Names)
    requires TameFrame(KTagbody(forms, pc, env), names) && TameStore(st, names)
    requires Clean(k, names) && k.Push? && !k.top.KThrowTag?
    ensures Good(RunTagbody(forms, pc, env, k, st), names)
  {
    var at := NextForm(forms, pc);
    if at < |forms| {
      NotATag(forms, pc);
      assert TameForm(forms[at], At(names, env), names);
      assert Clean(Push(KTagbody(forms, at + 1, env), k), names);
    }
  }

  lemma {:induction false} NotATag(forms: seq<Val>, pc: nat)
    ensures NextForm(forms, pc) < |forms| ==> !IsTag(forms[NextForm(forms, pc)])
    decreases |forms| - pc
  {
    if pc < |forms| && IsTag(forms[pc]) { NotATag(forms, pc + 1); }
  }

  lemma {:induction false} StartTemplateTame(t: Template, env: nat, k: Stack, st: Store, names: Names)
    requires TameTemplate(t, At(names, env), names) && Mixed(k, names) && k.Push? && TameStore(st, names)
    requires !k.top.KThrowTag? && !Wants(k) && !k.top.KOperator?
    ensures GoodAction(StartTemplate(t, env, k, st), names)
    decreases t
  {
    match t
    case Constant(v) =>
    case Unquoted(e) =>
    case Pairing(h, u) =>
      assert Mixed(Push(KHead(t, u, env), k), names);
      StartTemplateTame(h, env, Push(KHead(t, u, env), k), st, names);
    case Splicing(h, u) =>
      assert Mixed(Push(KHead(t, u, env), k), names);
      StartTemplateTame(h, env, Push(KHead(t, u, env), k), st, names);
  }

  lemma ClosureTame(f: Val, args: Val, env: nat, k: Stack, st: Store, names: Names) returns (later: Names)
    requires f.Closure? && TameVal(f, names) && TameVal(args, names) && Open(k, names) && TameStore(st, names)
    ensures Extends(later, names) && GoodAction(Enter(f, args, env, k, st), later)
  {
    var n := |st.envs|;
    var inner := NewFrame(st, f.scope);
    var b := BindParams(inner, f.params, args, n);
    NewFrameTame(st, f.scope, names);
    BindParamsTame(inner, f.params, args, n, names);
    if b.ok {
      later := Inner(names, n, f.scope, Params(f.params));
      InnerVisible(b.store.envs, names, n, f.scope, Params(f.params));
      CalledTame(f, n, k, b.store, names, later);
    } else {
      later := names;
    }
  }

  lemma CalledTame(f: Val, n: nat, k: Stack, st: Store, names: Names, later: Names)
    requires f.Closure? && TameVal(f, names) && Open(k, names) && TameStore(st, names)
    requires Extends(later, names) && Visible(st.envs, later) && At(later, n) == At(names, f.scope) + Params(f.params)
    ensures Good(StartProgn(f.body, n, k, st), later)
  {
    ValuesLater(st, names, later);
    CleanLater(k, names, later);
    AllLater(f.body, At(later, n), At(later, n), names, later);
    StartPrognTame(f.body, n, k, st, later);
  }

  lemma LibraryTame(f: Val, args: Val, env: nat, k: Stack, st: Store, names: Names)
    requires f.Native? && (f.prim.Library? || f.prim.MakeCons?)
    requires TameVal(args, names) && Open(k, names) && TameStore(st, names)
    ensures GoodAction(Enter(f, args, env, k, st), names)
  {
    PartsTame(args, names);
  }

  lemma MacroexpandTame(args: Val, env: nat, k: Stack, st: Store, names: Names)
    requires TameVal(args, names) && Open(k, names) && TameStore(st, names)
    ensures GoodAction(Enter(Native(Macroexpand1), args, env, k, st), names)
  {
    var form := Car(args);
    PartsTame(args, names);
    LookupTame(st, Car(form), env, names);
  }

  lemma {:induction false} EnterTame(f: Val, args: Val, env: nat, k: Stack, st: Store, names: Names)
    returns (later: Names)
    requires TameVal(f, names) && TameVal(args, names) && Open(k, names) && TameStore(st, names)
    ensures Extends(later, names) && GoodAction(Enter(f, args, env, k, st), later)
    decreases Size(args)
  {
    later := names;
    if (f == Native(Funcall) || f == Native(Apply)) && args.Cons? {
      PartsTame(args, names);
      assert Size(Car(args.cdr)) <= Size(args.cdr);
      later := EnterTame(args.car, if f == Native(Funcall) then args.cdr else Car(args.cdr), env, k, st, names);
    } else if f.Closure? {
      later := ClosureTame(f, args, env, k, st, names);
    } else if f == Native(Macroexpand1) {
      MacroexpandTame(args, env, k, st, names);
    } else if f.Native? && (f.prim.Library? || f.prim.MakeCons?) {
      LibraryTame(f, args, env, k, st, names);
    } else {
      RaiseTame(NotAFunction, f, names);
    }
  }

  lemma StartArgsTame(f: Val, done: seq<Val>, rest: Val, env: nat, k: Stack, st: Store, names: Names)
    returns (later: Names)
    requires TameVal(f, names) && (forall i :: 0 <= i < |done| ==> TameVal(done[i], names))
    requires TameAll(rest, At(names, env), names) && Open(k, names) && TameStore(st, names)
    ensures Extends(later, names) && GoodAction(StartArgs(f, done, rest, env, k, st), later)
  {
    later := names;
    if rest.Cons? {
      assert Clean(Push(KArg(f, done, rest.cdr, env), k), names);
    } else {
      ListedTame(done, Nil, st, names);
      later := EnterTame(f, Listed(done, Nil, st).val, env, k, Listed(done, Nil, st).store, names);
    }
  }

  lemma CallTame(op: Name, args: Val, env: nat, k: Stack, st: Store, names: Names) returns (later: Names)
    requires TameAll(args, At(names, env), names) && Open(k, names) && TameStore(st, names)
    ensures Extends(later, names) && GoodAction(Call(op, args, env, k, st), later)
  {
    later := names;
    LookupTame(st, Sym(op), env, names);
    var f := FunctionOf(st, Sym(op), env);
    RaiseTame(UndefinedFunction, Sym(op), names);
    if f != Nil { later := StartArgsTame(f, [], args, env, k, st, names); }
  }

  /** What a special form may be evaluated on. */
  predicate Below(op: Name, args: Val, env: nat, k: Stack, names: Names) {
    && TameNamed(op, args, At(names, env), names) && Clean(k, names) && k.Push? && !k.top.KThrowTag?
    && (Wants(k) ==> QuietNamed(op, args))
  }

  lemma EvalTame(e: Val, env: nat, f: Frame, k: Stack, st: Store, names: Names)
    requires Tame(e, At(names, env), names) && !Unguarded(f) && (f.KThrowTag? ==> SafeTag(e, names))
    requires TameFrame(f, names) && Fits(f, k) && Clean(k, names) && k.Push? && TameStore(st, names)
    requires Wants(Push(f, k)) ==> Quiet(e)
    ensures GoodAction(Go(Ev(e, env, Push(f, k), st)), names)
  {
    assert Clean(Push(f, k), names);
  }

  lemma DefunTame(args: Val, env: nat, k: Stack, st: Store, names: Names)
    requires Below(SDefun, args, env, k, names) && TameStore(st, names)
    ensures GoodAction(Named(SDefun, args, env, k, st), names)
  {
    FromTame(args, At(names, env) + Params(Car(Cdr(args))), names);
    var f := MkClosure(st, Car(Cdr(args)), Cdr(Cdr(args)), env);
    SetFunctionTame(f.store, Car(args), f.val, Owner(st.envs, env), names);
  }

  lemma LocalTame(op: Name, args: Val, env: nat, k: Stack, st: Store, names: Names) returns (later: Names)
    requires op.SFlet? || op.SLabels?
    requires Below(op, args, env, k, names) && TameStore(st, names)
    ensures Extends(later, names) && GoodAction(Named(op, args, env, k, st), later)
  {
    later := NewScopeTame(st, env, k, names);
    LocalLater(args, At(names, env), At(names, env), names, later);
    LocalsTame(args, if op.SLabels? then |st.envs| else env, |st.envs|, k, NewFrame(st, env), later);
  }

  lemma NewScopeTame(st: Store, env: nat, k: Stack, names: Names) returns (later: Names)
    requires TameStore(st, names) && Clean(k, names)
    ensures Extends(later, names) && TameStore(NewFrame(st, env), later) && Clean(k, later)
    ensures At(later, |st.envs|) == At(names, env) == At(later, env)
  {
    NewFrameTame(st, env, names);
    later := Inner(names, |st.envs|, env, {});
    InnerVisible(NewFrame(st, env).envs, names, |st.envs|, env, {});
    ValuesLater(NewFrame(st, env), names, later);
    CleanLater(k, names, later);
  }

  lemma LocalsTame(args: Val, scope: nat, n: nat, k: Stack, st: Store, names: Names)
    requires (args.Cons? ==> TameBindings(args.car, At(names, scope), names)) && TameFrom(1, args, At(names, n), names)
    requires Open(k, names) && TameStore(st, names)
    ensures Good(StartProgn(Cdr(args), n, k, BindFunctions(st, Car(args), scope, n)), names)
  {
    FromTame(args, At(names, n), names);
    BindFunctionsTame(st, Car(args), scope, n, names);
    StartPrognTame(Cdr(args), n, k, BindFunctions(st, Car(args), scope, n), names);
  }

  lemma DefinitionTame(op: Name, args: Val, env: nat, k: Stack, st: Store, names: Names)
    requires op.SDefconstant? || op.SDefdynamic? || op.SDefglobal?
    requires Below(op, args, env, k, names) && TameStore(st, names)
    ensures GoodAction(Named(op, args, env, k, st), names)
  {
    assert TameTail(args, At(names, env), names);
    SecondTame(args, At(names, env), names);
    var f := if op.SDefdynamic? then KDefine(Defdynamic, Car(args), GLOBAL)
             else KDefine(if op.SDefglobal? then Defglobal else Defconstant, Car(args), Owner(st.envs, env));
    EvalTame(Car(Cdr(args)), env, f, k, st, names);
  }

  lemma DefvarTame(args: Val, env: nat, k: Stack, st: Store, names: Names)
    requires Below(SDefvar, args, env, k, names) && TameStore(st, names)
    ensures GoodAction(Named(SDefvar, args, env, k, st), names)
  {
    assert TameTail(args, At(names, env), names);
    SecondTame(args, At(names, env), names);
    SetVariableTame(st, Car(args), Nil, Owner(st.envs, env), names);
    EvalTame(Car(Cdr(args)), env, KDefine(Defvar, Car(args), Owner(st.envs, env)), k, st, names);
  }

  lemma ControlTame(op: Name, args: Val, env: nat, k: Stack, st: Store, names: Names)
    requires op.SBlock? || op.STagbody?
    requires Below(op, args, env, k, names) && TameStore(st, names)
    ensures GoodAction(Named(op, args, env, k, st), names)
  {
    FromTame(args, At(names, env), names);
    if op.SBlock? {
      assert Clean(Push(KBlock(Car(args)), k), names);
      StartPrognTame(Cdr(args), env, Push(KBlock(Car(args)), k), st, names);
    } else {
      FormsTame(args, At(names, env), names);
      RunTagbodyTame(Elems(args), 0, env, k, st, names);
    }
  }

  lemma ReturnFromTame(args: Val, env: nat, k: Stack, st: Store, names: Names)
    requires Below(SReturnFrom, args, env, k, names) && TameStore(st, names)
    ensures GoodAction(Named(SReturnFrom, args, env, k, st), names)
  {
    SecondTame(args, At(names, env), names);
    RaiseTame(Control, Nil, names);
    EvalTame(Car(Cdr(args)), env, KReturnFrom(Car(args)), k, st, names);
  }

  lemma GuardTame(op: Name, args: Val, env: nat, k: Stack, st: Store, names: Names)
    requires op.SUnwindProtect? || op.SCatch?
    requires Below(op, args, env, k, names) && TameStore(st, names)
    ensures GoodAction(Named(op, args, env, k, st), names)
  {
    CarTame(args, At(names, env), names);
    EvalTame(Car(args), env, if op.SCatch? then KCatchTag(Cdr(args), env) else KProtect(Cdr(args), env), k, st, names);
  }

  lemma ThrowTame(args: Val, env: nat, k: Stack, st: Store, names: Names)
    requires Below(SThrow, args, env, k, names) && TameStore(st, names)
    ensures GoodAction(Named(SThrow, args, env, k, st), names)
  {
    CarTame(args, At(names, env), names);
    CarTame(Cdr(args), At(names, env), names);
    EvalTame(Car(args), env, KThrowTag(Car(Cdr(args)), env), k, st, names);
  }

  lemma ConditionalTame(args: Val, env: nat, k: Stack, st: Store, names: Names)
    requires Below(SIf, args, env, k, names) && TameStore(st, names)
    ensures GoodAction(Named(SIf, args, env, k, st), names)
  {
    CarTame(args, At(names, env), names);
    CarTame(Cdr(args), At(names, env), names);
    EvalTame(Car(args), env, KIf(Car(Cdr(args)), Cdr(Cdr(args)), env), k, st, names);
  }

  lemma SetqTame(args: Val, env: nat, k: Stack, st: Store, names: Names)
    requires Below(SSetq, args, env, k, names) && TameStore(st, names)
    ensures GoodAction(Named(SSetq, args, env, k, st), names)
  {
    SecondTame(args, At(names, env), names);
    RaiseTame(ImmutableBinding, Nil, names);
    EvalTame(Car(Cdr(args)), env, KSetq(Car(args), env), k, st, names);
  }

  lemma ReferenceTame(op: Name, args: Val, env: nat, k: Stack, st: Store, names: Names)
    requires op.SFunction? || op.SDynamic?
    requires Below(op, args, env, k, names) && TameStore(st, names)
    ensures GoodAction(Named(op, args, env, k, st), names)
  {
    LookupTame(st, Car(args), env, names);
    if op.SFunction? {
      if Car(args).Sym? {
        RaiseTame(UndefinedFunction, Car(args), names);
      } else {
        CarTame(args, At(names, env), names);
      }
    }
  }

  lemma LambdaTame(args: Val, env: nat, k: Stack, st: Store, names: Names)
    requires Below(SLambda, args, env, k, names) && TameStore(st, names)
    ensures GoodAction(Named(SLambda, args, env, k, st), names)
  {
    FromTame(args, At(names, env) + Params(Car(args)), names);
  }

  predicate Plain(op: Name) {
    op.SQuote? || op.SGo? || op.SDeclaim? || op.SDeclare? || op.SDefmacro?
  }

  lemma PlainTame(op: Name, args: Val, env: nat, k: Stack, st: Store, names: Names)
    requires Plain(op) && Below(op, args, env, k, names) && TameStore(st, names)
    ensures GoodAction(Named(op, args, env, k, st), names)
  {
  }

  lemma SequenceTame(op: Name, args: Val, env: nat, k: Stack, st: Store, names: Names)
    requires op.SProgn? || op.SQuasiquote?
    requires Below(op, args, env, k, names) && TameStore(st, names)
    ensures GoodAction(Named(op, args, env, k, st), names)
  {
    if op.SProgn? {
      StartPrognTame(args, env, k, st, names);
    } else {
      CompiledTame(Car(args), 0, At(names, env), names);
      StartTemplateTame(Compile(Car(args), 0), env, k, st, names);
    }
  }

  predicate Defines(op: Name) {
    op.SDefun? || op.SFlet? || op.SLabels? || op.SDefvar? || op.SDefconstant? || op.SDefdynamic? || op.SDefglobal?
  }

  lemma DefiningTame(op: Name, args: Val, env: nat, k: Stack, st: Store, names: Names) returns (later: Names)
    requires Defines(op) && Below(op, args, env, k, names) && TameStore(st, names)
    ensures Extends(later, names) && GoodAction(Named(op, args, env, k, st), later)
  {
    later := names;
    if op.SFlet? || op.SLabels? {
      later := LocalTame(op, args, env, k, st, names);
    } else if op.SDefun? {
      DefunTame(args, env, k, st, names);
    } else if op.SDefvar? {
      DefvarTame(args, env, k, st, names);
    } else {
      DefinitionTame(op, args, env, k, st, names);
    }
  }

  predicate Exits(op: Name) {
    op.SBlock? || op.STagbody? || op.SReturnFrom? || op.SUnwindProtect? || op.SCatch? || op.SThrow?
  }

  lemma ExitingTame(op: Name, args: Val, env: nat, k: Stack, st: Store, names: Names)
    requires Exits(op) && Below(op, args, env, k, names) && TameStore(st, names)
    ensures GoodAction(Named(op, args, env, k, st), names)
  {
    if op.SBlock? || op.STagbody? {
      ControlTame(op, args, env, k, st, names);
    } else if op.SReturnFrom? {
      ReturnFromTame(args, env, k, st, names);
    } else if op.SThrow? {
      ThrowTame(args, env, k, st, names);
    } else {
      GuardTame(op, args, env, k, st, names);
    }
  }

  predicate Expresses(op: Name) {
    op.SLambda? || op.SIf? || op.SSetq? || op.SFunction? || op.SDynamic? || op.SProgn? || op.SQuasiquote?
  }

  lemma ExpressingTame(op: Name, args: Val, env: nat, k: Stack, st: Store, names: Names)
    requires (Plain(op) || Expresses(op)) && Below(op, args, env, k, names) && TameStore(st, names)
    ensures GoodAction(Named(op, args, env, k, st), names)
  {
    if op.SLambda? {
      LambdaTame(args, env, k, st, names);
    } else if op.SIf? {
      ConditionalTame(args, env, k, st, names);
    } else if op.SSetq? {
      SetqTame(args, env, k, st, names);
    } else if op.SFunction? || op.SDynamic? {
      ReferenceTame(op, args, env, k, st, names);
    } else if op.SProgn? || op.SQuasiquote? {
      SequenceTame(op, args, env, k, st, names);
    } else {
      PlainTame(op, args, env, k, st, names);
    }
  }

  lemma NamedTame(op: Name, args: Val, env: nat, k: Stack, st: Store, names: Names) returns (later: Names)
    requires Below(op, args, env, k, names) && TameStore(st, names)
    ensures Extends(later, names) && GoodAction(Named(op, args, env, k, st), later)
  {
    later := names;
    if Defines(op) {
      later := DefiningTame(op, args, env, k, st, names);
    } else if Exits(op) {
      ExitingTame(op, args, env, k, st, names);
    } else if Plain(op) || Expresses(op) {
      ExpressingTame(op, args, env, k, st, names);
    } else {
      later := CallTame(op, args, env, k, st, names);
    }
  }

  lemma ResumeSequenceTame(v: Val, f: Frame, k: Stack, st: Store, names: Names) returns (later: Names)
    requires f.KOperator? || f.KArg? || f.KProgn? || f.KHead? || f.KTail?
    requires ValueFits(v, Push(f, k), names) && Mixed(Push(f, k), names) && k.Push? && TameStore(st, names)
    ensures Extends(later, names) && GoodAction(Resume(v, f, k, st), later)
  {
    later := names;
    if f.KOperator? {
      RaiseTame(NotAFunction, Nil, names);
      if v != Nil { later := StartArgsTame(v, [], f.args, f.env, k, st, names); }
    } else if f.KArg? {
      later := StartArgsTame(f.f, f.done + [v], f.rest, f.env, k, st, names);
    } else if f.KProgn? {
      StartPrognTame(f.rest, f.env, k, st, names);
    } else if f.KHead? {
      assert Mixed(Push(KTail(f.t, v), k), names);
      StartTemplateTame(f.tail, f.env, Push(KTail(f.t, v), k), st, names);
    } else if f.t.Splicing? {
      AppendTame(st, f.head, v, names);
    }
  }

  lemma ResumeBindingTame(v: Val, f: Frame, k: Stack, st: Store, names: Names)
    requires f.KIf? || f.KSetq? || f.KDefine? || f.KBlock? || f.KCatch? || f.KThrow? || f.KCleanup?
    requires ValueFits(v, Push(f, k), names) && Clean(Push(f, k), names) && k.Push? && TameStore(st, names)
    ensures GoodAction(Resume(v, f, k, st), names)
  {
    if f.KIf? {
      CarTame(f.rest, At(names, f.env), names);
    } else if f.KSetq? {
      var at := FindVariable(st.envs, f.sym, f.env);
      SetVariableTame(st, f.sym, v, if at.Some? then at.value else f.env, names);
    } else if f.KDefine? {
      DefineTame(f.kind, f.sym, v, f.owner, st, names);
    }
  }

  lemma ResumeGuardTame(v: Val, f: Frame, k: Stack, st: Store, names: Names)
    requires f.KReturnFrom? || f.KProtect? || f.KCatchTag? || f.KThrowTag? || f.KTagbody?
    requires ValueFits(v, Push(f, k), names) && Clean(Push(f, k), names) && k.Push? && TameStore(st, names)
    ensures GoodAction(Resume(v, f, k, st), names)
  {
    if f.KReturnFrom? {
      RaiseTame(Control, Nil, names);
    } else if f.KProtect? {
      assert Clean(Push(KCleanup(v), k), names);
      StartPrognTame(f.cleanup, f.env, Push(KCleanup(v), k), st, names);
    } else if f.KCatchTag? {
      assert Clean(Push(KCatch(v), k), names);
      StartPrognTame(f.body, f.env, Push(KCatch(v), k), st, names);
    } else if f.KThrowTag? {
      assert Clean(Push(KThrow(v), k), names);
    }
  }

  lemma ResumeTame(v: Val, f: Frame, k: Stack, st: Store, names: Names) returns (later: Names)
    requires ValueFits(v, Push(f, k), names) && Mixed(Push(f, k), names) && k.Push? && TameStore(st, names)
    ensures Extends(later, names) && GoodAction(Resume(v, f, k, st), later)
  {
    later := names;
    if f.KOperator? || f.KArg? || f.KProgn? || f.KHead? || f.KTail? {
      later := ResumeSequenceTame(v, f, k, st, names);
    } else if f.KReturnFrom? || f.KProtect? || f.KCatchTag? || f.KThrowTag? || f.KTagbody? {
      ResumeGuardTame(v, f, k, st, names);
    } else {
      ResumeBindingTame(v, f, k, st, names);
    }
  }

  /** At an operator position, in a template or as a throw tag. */
  lemma HeldFormTame(e: Val, env: nat, k: Stack, st: Store, names: Names)
    requires TameStore(st, names) && Mixed(k, names) && Tame(e, At(names, env), names) && FormFits(e, env, k, names)
    requires (!Clean(k, names) || k.top.KThrowTag?) && e.Cons? && e.car.Sym?
    ensures GoodAction(Named(e.car.name, e.cdr, env, k, st), names)
  {
    FromTame(e.cdr, At(names, env) + Params(Car(e.cdr)), names);
    if LambdaForm(e) {
      assert TameNamed(SLambda, e.cdr, At(names, env), names);
    } else {
      assert Quoted(e) && TameNamed(SQuote, e.cdr, At(names, env), names);
    }
  }

  lemma OperatorTame(e: Val, env: nat, k: Stack, st: Store, names: Names)
    requires Good(Ev(e, env, k, st), names) && e.Cons? && !e.car.Sym?
    ensures GoodAction(Act(Ev(e, env, k, st)), names)
  {
    assert Mixed(Push(KOperator(e.cdr, env), k), names);
  }

  lemma ActTame(c: Config, names: Names) returns (later: Names)
    requires Good(c, names)
    ensures Extends(later, names) && GoodAction(Act(c), later)
  {
    later := names;
    match c
    case Ev(e, env, k, st) =>
      if e.Sym? {
        LookupTame(st, e, env, names);
        RaiseTame(UnboundVariable, e, names);
      } else if e.Cons? && e.car.Sym? {
        if Clean(k, names) && !k.top.KThrowTag? {
          later := NamedTame(e.car.name, e.cdr, env, k, st, names);
        } else {
          HeldFormTame(e, env, k, st, names);
        }
      } else if e.Cons? {
        OperatorTame(e, env, k, st, names);
      }
    case Ret(v, k, st) =>
      if k.Push? && k.rest.Push? { later := ResumeTame(v, k.top, k.rest, st, names); }
  }

  // ---------------------------------------------------------------- jumps

  lemma ProtectTame(x: Val, f: Frame, k: Stack, st: Store, names: Names)
    requires TameExit(x, names) && Clean(Push(f, k), names) && f.KProtect? && TameStore(st, names)
    ensures Good(Jump(Implemented, x, Push(f, k), st), names)
  {
    assert Clean(Push(KCleanup(x), k), names);
    StartPrognTame(f.cleanup, f.env, Push(KCleanup(x), k), st, names);
  }

  lemma GoTame(x: Val, f: Frame, k: Stack, st: Store, names: Names)
    requires Clean(Push(f, k), names) && f.KTagbody? && TameStore(st, names)
    requires x.GoExit? && Label(f.forms, x.tag).Some?
    ensures Good(Jump(Implemented, x, Push(f, k), st), names)
  {
    RunTagbodyTame(f.forms, Label(f.forms, x.tag).value + 1, f.env, k, st, names);
  }

  lemma {:induction false} JumpTame(x: Val, k: Stack, st: Store, names: Names)
    requires TameExit(x, names) && Clean(k, names) && TameStore(st, names)
    ensures !JumpSlips(x, k) && Good(Jump(Implemented, x, k, st), names)
    decreases k
  {
    if k.Push? {
      var f, rest := k.top, k.rest;
      if f.KProtect? {
        ProtectTame(x, f, rest, st, names);
      } else if f.KTagbody? && x.GoExit? && Label(f.forms, x.tag).Some? {
        GoTame(x, f, rest, st, names);
      } else if f.KCleanup? && IsExit(f.result) {
        RaiseTame(Control, Nil, names);
        JumpTame(Raise(Control, Nil), rest, st, names);
      } else if !(f.KBlock? && Target(x) == f.name) && !(f.KCatch? && x.CatchExit? && x.tag == f.tag) {
        JumpTame(x, rest, st, names);
      }
    }
  }

  lemma StepTame(c: Config, names: Names) returns (later: Names)
    requires Good(c, names)
    ensures Extends(later, names) && !Slips(Act(c)) && Good(Step(Implemented, c), later)
  {
    later := ActTame(c, names);
    match Act(c)
    case Go(_) =>
    case Give(v, k, st) => if IsExit(v) { JumpTame(v, k, st, later); }
    case FormDone(v, f, k, st) => RunTagbodyTame(f.forms, f.pc, f.env, k, st, later);
  }

  lemma {:induction false} RunTame(n: nat, c: Config, names: Names) returns (later: Names)
    requires Good(c, names)
    ensures NoSlip(n, c) && Good(Run(Implemented, n, c), later)
  {
    later := names;
    if n > 0 {
      later := StepTame(c, names);
      later := RunTame(n - 1, Step(Implemented, c), later);
    }
  }
}
