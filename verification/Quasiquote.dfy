/** What a quasiquote builds (section 16.1 of the ISLISP Working Draft 23): the template with
    the unquoted expressions of the outermost level, and only those, replaced by their
    values. */
module Quasiquote {
  import opened Lisp
  import opened Eval

  /** The expressions to evaluate, from left to right. */
  function Holes(form: Val, depth: nat): seq<Val>
    decreases form, 1
  {
    if !form.Cons? then []
    else if form.car == Sym(SQuasiquote) then OperandHoles(form, depth + 1)
    else if form.car == Sym(SUnquote) || form.car == Sym(SUnquoteSplicing) then
      if depth == 0 then [Car(form.cdr)] else OperandHoles(form, depth - 1)
    else Holes(form.car, depth) + Holes(form.cdr, depth)
  }

  /** The holes of the operand of (op operand); a missing operand has none. */
  function OperandHoles(form: Val, depth: nat): seq<Val>
    requires form.Cons?
    decreases form, 0
  {
    if form.cdr.Cons? then Holes(form.cdr.car, depth) else []
  }

  /** The elements of a list in front of `tail`. */
  function Spread(elems: seq<Val>, tail: Val): Val {
    if elems == [] then tail else Cons(0, elems[0], Spread(elems[1..], tail))
  }

  predicate Proper(v: Val) { if v.Cons? then Proper(v.cdr) else v == Nil }

  /** The elements that splicing a value contributes: an improper tail counts as one nil. */
  function Spliced(v: Val): seq<Val> { Elems(v) + if Proper(v) then [] else [Nil] }

  function Pair(op: Name, x: Val): Val { Cons(0, Sym(op), Cons(0, x, Nil)) }

  predicate IsSplice(form: Val) { form.Cons? && form.car == Sym(SUnquoteSplicing) }

  /** The template with `values` in the places of its holes. */
  function Fill(form: Val, depth: nat, values: seq<Val>): Val
    requires |values| == |Holes(form, depth)|
    decreases form, 1
  {
    if !form.Cons? then form
    else if form.car == Sym(SQuasiquote) then FillOperand(SQuasiquote, form, depth + 1, values)
    else if form.car == Sym(SUnquote) || form.car == Sym(SUnquoteSplicing) then
      if depth == 0 then values[0] else FillOperand(form.car.name, form, depth - 1, values)
    else
      var n := |Holes(form.car, depth)|;
      var head, tail := Fill(form.car, depth, values[..n]), Fill(form.cdr, depth, values[n..]);
      if depth == 0 && IsSplice(form.car) then Spread(Spliced(head), tail) else Cons(0, head, tail)
  }

  /** (op operand) with the operand filled; a missing operand becomes nil. */
  function FillOperand(op: Name, form: Val, depth: nat, values: seq<Val>): Val
    requires form.Cons? && |values| == |OperandHoles(form, depth)|
    decreases form, 0
  {
    Pair(op, if form.cdr.Cons? then Fill(form.cdr.car, depth, values) else Nil)
  }

  /** Equality of values that ignores where their conses were allocated. */
  predicate Same(a: Val, b: Val) {
    if a.Cons? && b.Cons? then Same(a.car, b.car) && Same(a.cdr, b.cdr) else a == b
  }

  lemma {:induction false} SamePair(op: Name, x: Val, form: Val)
    ensures Same(Pair(op, x), form) <==>
            form.Cons? && form.car == Sym(op) && form.cdr.Cons? && Same(x, form.cdr.car) && form.cdr.cdr == Nil
  {
    if form.Cons? && form.cdr.Cons? {
      assert Same(Pair(op, x).cdr, form.cdr) <==> Same(x, form.cdr.car) && Same(Nil, form.cdr.cdr);
    }
  }

  lemma {:induction false} SameRefl(a: Val)
    ensures Same(a, a)
  {
    if a.Cons? {
      SameRefl(a.car);
      SameRefl(a.cdr);
    }
  }

  /** qq_append puts copies of the elements in front of the tail. */
  lemma {:induction false} AppendSpreads(st: Store, list: Val, tail: Val, plain: Val)
    requires Same(tail, plain)
    ensures Same(Append(st, list, tail).val, Spread(Spliced(list), plain))
    decreases list
  {
    if list.Cons? {
      AppendSpreads(st, list.cdr, tail, plain);
      SameRefl(list.car);
      assert Spliced(list)[1..] == Spliced(list.cdr);
    } else if list != Nil {
      assert Spliced(list) == [Nil];
    }
  }

  lemma {:induction false} AppendElems(st: Store, list: Val, tail: Val)
    ensures Elems(Append(st, list, tail).val) == Spliced(list) + Elems(tail)
    decreases list
  {
    if list.Cons? {
      AppendElems(st, list.cdr, tail);
      assert Spliced(list) == [list.car] + Spliced(list.cdr);
    } else if list != Nil {
      assert Spliced(list) == [Nil];
    }
  }

  /** qq_append is concatenation exactly on proper lists; an improper one adds a nil. */
  lemma AppendIsConcatenation(st: Store, list: Val, tail: Val)
    ensures Elems(Append(st, list, tail).val) == Elems(list) + Elems(tail) <==> Proper(list)
  {
    AppendElems(st, list, tail);
    assert |Spliced(list) + Elems(tail)| == |Elems(list) + Elems(tail)| + if Proper(list) then 0 else 1;
  }

  /** Two states that differ at most in how much has been allocated. */
  predicate Alike(s: State, t: State) {
    s.store.(next := 0) == t.store.(next := 0) && s.live == t.live
  }

  /** One evaluated hole: its value, and the states around its evaluation. */
  datatype Answer = Answer(value: Val, before: State, after: State)

  function Values(answers: seq<Answer>): (values: seq<Val>)
    ensures |values| == |answers|
  {
    seq(|answers|, k requires 0 <= k < |answers| => answers[k].value)
  }

  /** The holes were evaluated one after the other, and nothing else happened between `s`
      and `t` but allocation. */
  predicate InOrder(fuel: nat, holes: seq<Val>, env: nat, answers: seq<Answer>, s: State, t: State)
  {
    if holes == [] || answers == [] then holes == [] && answers == [] && Alike(s, t)
    else
      var a := answers[0];
      && Alike(s, a.before) && OsEval(fuel, holes[0], env, a.before) == Done(a.value, a.after)
      && InOrder(fuel, holes[1..], env, answers[1..], a.after, t)
  }

  lemma {:induction false} InOrderConcat(fuel: nat, hs: seq<Val>, gs: seq<Val>, env: nat,
                                         xs: seq<Answer>, ys: seq<Answer>, s: State, t: State, u: State)
    requires InOrder(fuel, hs, env, xs, s, t) && InOrder(fuel, gs, env, ys, t, u)
    ensures InOrder(fuel, hs + gs, env, xs + ys, s, u)
  {
    if hs == [] {
      assert hs + gs == gs && xs + ys == ys;
    } else {
      InOrderConcat(fuel, hs[1..], gs, env, xs[1..], ys, xs[0].after, t, u);
      assert (hs + gs)[1..] == hs[1..] + gs && (xs + ys)[1..] == xs[1..] + ys;
    }
  }

  lemma {:induction false} InOrderEnds(fuel: nat, hs: seq<Val>, env: nat, xs: seq<Answer>, s: State, t: State, u: State)
    requires InOrder(fuel, hs, env, xs, s, t) && Alike(t, u)
    ensures InOrder(fuel, hs, env, xs, s, u)
  {
    if hs != [] { InOrderEnds(fuel, hs[1..], env, xs[1..], xs[0].after, t, u); }
  }

  lemma AppendAllocates(st: Store, list: Val, tail: Val)
    ensures Append(st, list, tail).store.(next := 0) == st.(next := 0)
    decreases list
  {
  }

  /** Every expansion that returns evaluates the holes of the outermost level, each once and
      from left to right, and returns the template filled with their values. */
  lemma {:induction false} ExpansionFills(fuel: nat, form: Val, env: nat, depth: nat, s: State)
    returns (answers: seq<Answer>)
    requires QqExpand(fuel, form, env, depth, s).Done?
    ensures |answers| == |Holes(form, depth)|
    ensures InOrder(fuel, Holes(form, depth), env, answers, s, QqExpand(fuel, form, env, depth, s).state)
    ensures Same(QqExpand(fuel, form, env, depth, s).val, Fill(form, depth, Values(answers)))
    ensures depth == 0 && IsSplice(form) ==> Values(answers) == [QqExpand(fuel, form, env, depth, s).val]
    decreases form, 1
  {
    var o := QqExpand(fuel, form, env, depth, s);
    if !form.Cons? {
      answers := [];
    } else if form.car == Sym(SQuasiquote) {
      answers := WrapFills(fuel, SQuasiquote, form, env, depth + 1, s);
    } else if form.car == Sym(SUnquote) || form.car == Sym(SUnquoteSplicing) {
      if depth == 0 {
        answers := [Answer(o.val, s, o.state)];
        assert Holes(form, depth)[1..] == [];
        SameRefl(o.val);
      } else {
        answers := WrapFills(fuel, form.car.name, form, env, depth - 1, s);
      }
    } else {
      answers := PairFills(fuel, form, env, depth, s);
    }
  }

  lemma {:induction false} WrapFills(fuel: nat, op: Name, form: Val, env: nat, depth: nat, s: State)
    returns (answers: seq<Answer>)
    requires form.Cons? && QqWrap(fuel, op, form, env, depth, s).Done?
    ensures |answers| == |OperandHoles(form, depth)|
    ensures InOrder(fuel, OperandHoles(form, depth), env, answers, s, QqWrap(fuel, op, form, env, depth, s).state)
    ensures Same(QqWrap(fuel, op, form, env, depth, s).val, FillOperand(op, form, depth, Values(answers)))
    decreases form, 0
  {
    if form.cdr.Cons? {
      var inner := QqExpand(fuel, form.cdr.car, env, depth, s);
      answers := ExpansionFills(fuel, form.cdr.car, env, depth, s);
      MadePair(inner.state, op, inner.val, Fill(form.cdr.car, depth, Values(answers)));
      InOrderEnds(fuel, Holes(form.cdr.car, depth), env, answers, s, inner.state,
                  With(inner.state, MkPair(inner.state.store, op, inner.val)).state);
    } else {
      answers := [];
      MadePair(s, op, Nil, Nil);
    }
  }

  lemma MadePair(s: State, op: Name, x: Val, y: Val)
    requires Same(x, y)
    ensures Same(MkPair(s.store, op, x).val, Pair(op, y)) && Alike(s, With(s, MkPair(s.store, op, x)).state)
  {
    var made := MkPair(s.store, op, x);
    assert Same(made.val.cdr, Pair(op, y).cdr);
  }

  lemma {:induction false} PairFills(fuel: nat, form: Val, env: nat, depth: nat, s: State)
    returns (answers: seq<Answer>)
    requires QqExpand(fuel, form, env, depth, s).Done? && form.Cons?
    requires form.car != Sym(SQuasiquote) && form.car != Sym(SUnquote) && form.car != Sym(SUnquoteSplicing)
    ensures |answers| == |Holes(form, depth)|
    ensures InOrder(fuel, Holes(form, depth), env, answers, s, QqExpand(fuel, form, env, depth, s).state)
    ensures Same(QqExpand(fuel, form, env, depth, s).val, Fill(form, depth, Values(answers)))
    decreases form, 0
  {
    var o := QqExpand(fuel, form, env, depth, s);
    HeadIsExpanded(fuel, form, env, depth, s);
    var head := QqExpand(fuel, form.car, env, depth, s);
    var tail := QqExpand(fuel, form.cdr, env, depth, head.state);
    var xs := ExpansionFills(fuel, form.car, env, depth, s);
    var ys := ExpansionFills(fuel, form.cdr, env, depth, head.state);
    answers := xs + ys;
    InOrderConcat(fuel, Holes(form.car, depth), Holes(form.cdr, depth), env, xs, ys, s, head.state, tail.state);
    AppendAllocates(tail.state.store, head.val, tail.val);
    InOrderEnds(fuel, Holes(form, depth), env, answers, s, tail.state, o.state);
    assert Values(answers)[..|xs|] == Values(xs) && Values(answers)[|xs|..] == Values(ys);
    if depth == 0 && IsSplice(form.car) {
      assert Values(xs) == [head.val];
      AppendSpreads(tail.state.store, head.val, tail.val, Fill(form.cdr, depth, Values(ys)));
    }
  }

  /** The head of a pair is expanded the same way whether it is a splice or not. */
  lemma HeadIsExpanded(fuel: nat, form: Val, env: nat, depth: nat, s: State)
    requires QqExpand(fuel, form, env, depth, s).Done? && form.Cons?
    requires form.car != Sym(SQuasiquote) && form.car != Sym(SUnquote) && form.car != Sym(SUnquoteSplicing)
    ensures QqExpand(fuel, form.car, env, depth, s).Done?
    ensures QqExpand(fuel, form.cdr, env, depth, QqExpand(fuel, form.car, env, depth, s).state).Done?
    ensures QqExpand(fuel, form, env, depth, s) ==
            var head := QqExpand(fuel, form.car, env, depth, s);
            var tail := QqExpand(fuel, form.cdr, env, depth, head.state);
            With(tail.state, if depth == 0 && IsSplice(form.car) then Append(tail.state.store, head.val, tail.val)
                             else MkCons(tail.state.store, head.val, tail.val))
  {
  }

  /** Every nested quasiquote and unquote form has exactly one operand. */
  predicate OneOperand(form: Val, depth: nat) {
    if !form.Cons? then true
    else if form.car == Sym(SQuasiquote) then Single(form) && OneOperand(Car(form.cdr), depth + 1)
    else if form.car == Sym(SUnquote) || form.car == Sym(SUnquoteSplicing) then
      depth > 0 && Single(form) && OneOperand(Car(form.cdr), depth - 1)
    else OneOperand(form.car, depth) && OneOperand(form.cdr, depth)
  }

  predicate Single(form: Val) { form.Cons? && form.cdr.Cons? && form.cdr.cdr == Nil }

  /** A template without outermost unquotes comes back as it was written, deeper quasiquote
      and unquote forms included, exactly when those have one operand each. */
  lemma {:induction false} NothingToFill(form: Val, depth: nat)
    requires Holes(form, depth) == []
    ensures Same(Fill(form, depth, []), form) <==> OneOperand(form, depth)
  {
    if form.Cons? {
      if form.car == Sym(SQuasiquote) {
        if form.cdr.Cons? { NothingToFill(form.cdr.car, depth + 1); }
        SamePair(SQuasiquote, if form.cdr.Cons? then Fill(form.cdr.car, depth + 1, []) else Nil, form);
      } else if form.car == Sym(SUnquote) || form.car == Sym(SUnquoteSplicing) {
        if form.cdr.Cons? { NothingToFill(form.cdr.car, depth - 1); }
        SamePair(form.car.name, if form.cdr.Cons? then Fill(form.cdr.car, depth - 1, []) else Nil, form);
      } else {
        assert Holes(form.car, depth) == [] && Holes(form.cdr, depth) == [];
        NothingToFill(form.car, depth);
        NothingToFill(form.cdr, depth);
      }
    }
  }

  lemma QuotedTemplateIsRebuilt(fuel: nat, form: Val, env: nat, s: State)
    requires QqExpand(fuel, form, env, 0, s).Done? && Holes(form, 0) == []
    ensures Alike(s, QqExpand(fuel, form, env, 0, s).state)
    ensures Same(QqExpand(fuel, form, env, 0, s).val, form) <==> OneOperand(form, 0)
  {
    var answers := ExpansionFills(fuel, form, env, 0, s);
    NothingToFill(form, 0);
    SameVia(QqExpand(fuel, form, env, 0, s).val, Fill(form, 0, []), form);
  }

  lemma {:induction false} SameVia(a: Val, b: Val, c: Val)
    requires Same(a, b)
    ensures Same(a, c) <==> Same(b, c)
  {
    if a.Cons? && b.Cons? && c.Cons? {
      SameVia(a.car, b.car, c.car);
      SameVia(a.cdr, b.cdr, c.cdr);
    }
  }
}
