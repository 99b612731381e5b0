/** In every run, and whatever the outcome, an unwind-protect that is entered starts its
    cleanup exactly once, after the protected form, and nested ones from the inside out. */
module Cleanup {
  import opened Lisp
  import opened Machine

  /** The cleanups that entered unwind-protects still owe, innermost first. */
  function Owed(k: Stack): seq<Val> {
    match k
    case Bottom => []
    case Push(KProtect(cleanup, _), rest) => [cleanup] + Owed(rest)
    case Push(_, rest) => Owed(rest)
  }

  datatype Event = Protected(cleanup: Val) | CleanupStarted(cleanup: Val)

  /** The cleanup that a jump starts, if it meets an unwind-protect before its handler. */
  function JumpStarts(d: Dialect, x: Val, k: Stack): seq<Event>
    requires IsExit(x)
    decreases k
  {
    match k
    case Bottom => []
    case Push(f, rest) =>
      match f
      case KProtect(cleanup, _) => [CleanupStarted(cleanup)]
      case KBlock(name) =>
        if !BlockCatches(d, name, x) then JumpStarts(d, x, rest)
        else if IsExit(Payload(x)) then JumpStarts(d, Payload(x), rest) else []
      case KCatch(tag) =>
        if !(x.CatchExit? && x.tag == tag) then JumpStarts(d, x, rest)
        else if IsExit(x.value) then JumpStarts(d, x.value, rest) else []
      case KTagbody(forms, _, _) =>
        if x.GoExit? && Label(forms, x.tag).Some? then [] else JumpStarts(d, x, rest)
      case KCleanup(result) => JumpStarts(d, if IsExit(result) then Raise(Control, Nil) else x, rest)
      case KExpansion(_) => []
      case _ => if d.Implemented? && Unguarded(f) then [] else JumpStarts(d, x, rest)
  }

  /** What a step does to unwind-protects: entering one, or starting its cleanup because a
      value reached it or a jump did. */
  function Events(d: Dialect, c: Config): seq<Event> {
    if c.Ev? && c.exp.Cons? && c.exp.car == Sym(SUnwindProtect) then [Protected(Cdr(c.exp.cdr))]
    else if c.Ret? && c.k.Push? && c.k.top.KProtect? then [CleanupStarted(c.k.top.cleanup)]
    else match Act(c)
         case Give(v, k, _) => if IsExit(v) then JumpStarts(d, v, k) else []
         case _ => []
  }

  function Trace(d: Dialect, n: nat, c: Config): seq<Event> {
    if n == 0 then [] else Events(d, c) + Trace(d, n - 1, Step(d, c))
  }

  /** The cleanups owed after some events, or None when a cleanup was started that was not
      the innermost one owed. */
  function Replay(owed: seq<Val>, events: seq<Event>): Option<seq<Val>>
    decreases |events|
  {
    if events == [] then Some(owed)
    else match events[0]
         case Protected(c) => Replay([c] + owed, events[1..])
         case CleanupStarted(c) => if owed == [] || owed[0] != c then None else Replay(owed[1..], events[1..])
  }

  /** A jump starts at most one cleanup, the innermost one owed, and skips none. */
  lemma ProtectReplays(d: Dialect, x: Val, f: Frame, k: Stack, st: Store)
    requires IsExit(x) && f.KProtect?
    ensures Replay(Owed(Push(f, k)), JumpStarts(d, x, Push(f, k))) == Some(Owed(Jump(d, x, Push(f, k), st).k))
  {
    assert Owed(Push(f, k))[1..] == Owed(k);
    StartPrognOwed(f.cleanup, f.env, Push(KCleanup(x), k), st);
  }

  lemma {:induction false} JumpReplays(d: Dialect, x: Val, k: Stack, st: Store)
    requires IsExit(x)
    ensures Replay(Owed(k), JumpStarts(d, x, k)) == Some(Owed(Jump(d, x, k, st).k))
    decreases k
  {
    match k
    case Bottom =>
    case Push(f, rest) =>
      if f.KProtect? {
        ProtectReplays(d, x, f, rest, st);
      } else if f.KBlock? && BlockCatches(d, f.name, x) {
        if IsExit(Payload(x)) { JumpReplays(d, Payload(x), rest, st); }
      } else if f.KCatch? && x.CatchExit? && x.tag == f.tag {
        if IsExit(x.value) { JumpReplays(d, x.value, rest, st); }
      } else if f.KCleanup? {
        JumpReplays(d, if IsExit(f.result) then Raise(Control, Nil) else x, rest, st);
      } else if !(f.KExpansion? || (d.Implemented? && Unguarded(f)) ||
                  (f.KTagbody? && x.GoExit? && Label(f.forms, x.tag).Some?)) {
        JumpReplays(d, x, rest, st);
      }
  }

  function ActionStack(a: Action): Stack {
    match a
    case Go(c) => c.k
    case Give(_, k, _) => k
    case FormDone(_, _, k, _) => k
  }

  lemma StartTemplateOwed(t: Template, env: nat, k: Stack, st: Store)
    ensures Owed(ActionStack(StartTemplate(t, env, k, st))) == Owed(k)
    decreases t
  {
    if t.Pairing? || t.Splicing? { StartTemplateOwed(t.head, env, Push(KHead(t, t.tail, env), k), st); }
  }

  lemma {:induction false} EnterOwed(f: Val, args: Val, env: nat, k: Stack, st: Store)
    ensures Owed(ActionStack(Enter(f, args, env, k, st))) == Owed(k)
    decreases Size(args)
  {
    if f == Native(Funcall) && args.Cons? {
      EnterOwed(args.car, args.cdr, env, k, st);
    } else if f == Native(Apply) && args.Cons? {
      assert Size(Car(args.cdr)) <= Size(args.cdr);
      EnterOwed(args.car, Car(args.cdr), env, k, st);
    }
  }

  lemma StartArgsOwed(f: Val, done: seq<Val>, rest: Val, env: nat, k: Stack, st: Store)
    ensures Owed(ActionStack(StartArgs(f, done, rest, env, k, st))) == Owed(k)
  {
    if !rest.Cons? { EnterOwed(f, Listed(done, Nil, st).val, env, k, Listed(done, Nil, st).store); }
  }

  lemma CallOwed(op: Name, args: Val, env: nat, k: Stack, st: Store)
    ensures Owed(ActionStack(Call(op, args, env, k, st))) == Owed(k)
  {
    StartArgsOwed(FunctionOf(st, Sym(op), env), [], args, env, k, st);
  }

  lemma StartPrognOwed(body: Val, env: nat, k: Stack, st: Store)
    ensures Owed(StartProgn(body, env, k, st).k) == Owed(k)
  {
  }

  lemma LocalOwed(args: Val, env: nat, recursive: bool, k: Stack, st: Store)
    ensures Owed(ActionStack(Local(args, env, recursive, k, st))) == Owed(k)
  {
  }

  lemma NamedOwed(op: Name, args: Val, env: nat, k: Stack, st: Store)
    ensures Owed(ActionStack(Named(op, args, env, k, st))) ==
            if op.SUnwindProtect? then [Cdr(args)] + Owed(k) else Owed(k)
  {
    match op
    case SQuasiquote => StartTemplateOwed(Compile(Car(args), 0), env, k, st);
    case SProgn => StartPrognOwed(args, env, k, st);
    case SBlock => StartPrognOwed(Cdr(args), env, Push(KBlock(Car(args)), k), st);
    case SFlet => LocalOwed(args, env, false, k, st);
    case SLabels => LocalOwed(args, env, true, k, st);
    case _ => CallOwed(op, args, env, k, st);
  }

  lemma ResumeOwed(v: Val, f: Frame, k: Stack, st: Store)
    ensures Owed(ActionStack(Resume(v, f, k, st))) == Owed(k)
  {
    match f
    case KOperator(args, env) => StartArgsOwed(v, [], args, env, k, st);
    case KArg(g, done, rest, env) => StartArgsOwed(g, done + [v], rest, env, k, st);
    case KHead(t, tail, env) => StartTemplateOwed(tail, env, Push(KTail(t, v), k), st);
    case _ =>
  }

  lemma StepReplays(d: Dialect, c: Config)
    ensures Replay(Owed(c.k), Events(d, c)) == Some(Owed(Step(d, c).k))
  {
    if c.Ev? && c.exp.Cons? && c.exp.car.Sym? {
      NamedOwed(c.exp.car.name, c.exp.cdr, c.env, c.k, c.st);
    }
    if c.Ret? && c.k.Push? { ResumeOwed(c.val, c.k.top, c.k.rest, c.st); }
    ActionReplays(d, Act(c));
    if c.Ret? && c.k.Push? && c.k.top.KProtect? {
      assert Owed(c.k)[1..] == Owed(c.k.rest);
      assert Replay(Owed(c.k), [CleanupStarted(c.k.top.cleanup)]) == Replay(Owed(c.k.rest), []);
    }
  }

  /** A step that gives an exit to the stack does the jump; no other action starts a cleanup. */
  lemma ActionReplays(d: Dialect, a: Action)
    ensures var starts := if a.Give? && IsExit(a.val) then JumpStarts(d, a.val, a.k) else [];
            Replay(Owed(ActionStack(a)), starts) == Some(Owed(Perform(d, a).k))
  {
    match a
    case Go(_) =>
    case Give(v, k, st) => if IsExit(v) { JumpReplays(d, v, k, st); }
    case FormDone(v, f, k, st) =>
  }

  lemma {:induction false} ReplayAppend(owed: seq<Val>, a: seq<Event>, b: seq<Event>)
    requires Replay(owed, a).Some?
    ensures Replay(owed, a + b) == Replay(Replay(owed, a).value, b)
    decreases |a|
  {
    if a == [] {
      assert a + b == b;
    } else {
      assert (a + b)[1..] == a[1..] + b;
      match a[0]
      case Protected(c) => ReplayAppend([c] + owed, a[1..], b);
      case CleanupStarted(c) => ReplayAppend(owed[1..], a[1..], b);
    }
  }

  /** At every moment of every run, the cleanups still owed are those of the frames on the
      stack: none was skipped, repeated or started out of turn. */
  lemma {:induction false} RunReplays(d: Dialect, n: nat, c: Config)
    ensures Replay(Owed(c.k), Trace(d, n, c)) == Some(Owed(Run(d, n, c).k))
  {
    if n > 0 {
      var next := Step(d, c);
      StepReplays(d, c);
      RunReplays(d, n - 1, next);
      ReplayAppend(Owed(c.k), Events(d, c), Trace(d, n - 1, next));
      assert Trace(d, n, c) == Events(d, c) + Trace(d, n - 1, next) && Run(d, n, c) == Run(d, n - 1, next);
    }
  }

  /** The event of starting a cleanup is the start of its forms, with the outcome of the
      protected form waiting on the stack. */
  lemma {:induction false} JumpStartsCleanup(d: Dialect, x: Val, k: Stack, st: Store)
      returns (env: nat, r: Val, rest: Stack)
    requires IsExit(x) && JumpStarts(d, x, k) != []
    ensures IsExit(r) && JumpStarts(d, x, k)[0].CleanupStarted?
    ensures Jump(d, x, k, st) == StartProgn(JumpStarts(d, x, k)[0].cleanup, env, Push(KCleanup(r), rest), st)
    decreases k
  {
    var f := k.top;
    if f.KProtect? {
      env, r, rest := f.env, x, k.rest;
    } else if f.KBlock? && BlockCatches(d, f.name, x) {
      env, r, rest := JumpStartsCleanup(d, Payload(x), k.rest, st);
    } else if f.KCatch? && x.CatchExit? && x.tag == f.tag {
      env, r, rest := JumpStartsCleanup(d, x.value, k.rest, st);
    } else if f.KCleanup? {
      env, r, rest := JumpStartsCleanup(d, if IsExit(f.result) then Raise(Control, Nil) else x, k.rest, st);
    } else {
      env, r, rest := JumpStartsCleanup(d, x, k.rest, st);
    }
  }

  /** How often the cleanup `c` was entered, and how often it was started. */
  function TimesEntered(events: seq<Event>, c: Val): nat {
    if events == [] then 0 else (if events[0] == Protected(c) then 1 else 0) + TimesEntered(events[1..], c)
  }

  function TimesStarted(events: seq<Event>, c: Val): nat {
    if events == [] then 0 else (if events[0] == CleanupStarted(c) then 1 else 0) + TimesStarted(events[1..], c)
  }

  function TimesOwed(owed: seq<Val>, c: Val): nat {
    if owed == [] then 0 else (if owed[0] == c then 1 else 0) + TimesOwed(owed[1..], c)
  }

  lemma {:induction false} ReplayBalances(owed: seq<Val>, events: seq<Event>, c: Val)
    requires Replay(owed, events).Some?
    ensures TimesOwed(owed, c) + TimesEntered(events, c) ==
            TimesOwed(Replay(owed, events).value, c) + TimesStarted(events, c)
    decreases |events|
  {
    if events != [] {
      match events[0]
      case Protected(e) =>
        assert ([e] + owed)[1..] == owed;
        ReplayBalances([e] + owed, events[1..], c);
      case CleanupStarted(e) => ReplayBalances(owed[1..], events[1..], c);
    }
  }

  /** Main result: in the run of a top-level form that finishes, for either dialect, each
      cleanup is started as often as its unwind-protect was entered, properly nested. */
  lemma CleanupsRunExactlyOnce(d: Dialect, n: nat, form: Val, env: nat, st: Store)
    requires Halted(Run(d, n, Load(form, env, st)))
    ensures Replay([], Trace(d, n, Load(form, env, st))) == Some([])
    ensures forall c ::
              TimesEntered(Trace(d, n, Load(form, env, st)), c) == TimesStarted(Trace(d, n, Load(form, env, st)), c)
  {
    var t := Trace(d, n, Load(form, env, st));
    assert Owed(Load(form, env, st).k) == [];
    RunReplays(d, n, Load(form, env, st));
    forall c ensures TimesEntered(t, c) == TimesStarted(t, c) {
      ReplayBalances([], t, c);
    }
  }
}
