/** Equations between what terms answer. */
module Laws {
  import opened Vocabulary
  import opened Syntax
  import opened Evaluation
  import opened Meaning

  lemma {:induction false} HandedTermsSay(e: Expr, env: Inputs, bindings: seq<Value>, depth: nat)
    requires Hands(e) && depth <= MAX_EXPR_DEPTH
    ensures Says(e, env, bindings, depth) ==
            if HandedOut(e, env, bindings).Ok? then Some(HandedOut(e, env, bindings).value) else None
  {
    hide HandedOut;
    assert Answered(e, env, bindings, depth + 1) == Handed(HandedOut(e, env, bindings));
  }

  lemma {:induction false} DrawnTermsSay(e: Expr, env: Inputs, bindings: seq<Value>, depth: nat)
    requires Draws(e) && depth <= MAX_EXPR_DEPTH
    ensures Says(e, env, bindings, depth) == if Drawn(e, env).Ok? then Some(Drawn(e, env).value) else None
  {
    hide Drawn, Walked;
    NoneBuilds(e, env, bindings, depth + 1);
    assert Answered(e, env, bindings, depth + 1) == Owned(Build(e, env, bindings, depth + 1));
  }

  /** Bindings count out from the innermost loop: the first is its element, and the rest are
      what they were outside it. */
  lemma {:induction false} BindingsCountOut(env: Inputs, outer: seq<Value>, v: Value, i: Word32, depth: nat)
    requires depth <= MAX_EXPR_DEPTH && i < MAX_WORD32
    ensures Says(Binding(0), env, outer + [v], depth) == Some(v)
    ensures Says(Binding(i + 1), env, outer + [v], depth) == Says(Binding(i), env, outer, depth)
    ensures Says(Binding(i), env, [], depth) == None
  {
    hide Says;
    HandedTermsSay(Binding(0), env, outer + [v], depth);
    HandedTermsSay(Binding(i + 1), env, outer + [v], depth);
    HandedTermsSay(Binding(i), env, outer, depth);
    HandedTermsSay(Binding(i), env, [], depth);
  }

  /** Arguments and configuration fields are named by position. */
  lemma {:induction false} InputsAreNamedByPosition(
      env: Inputs, before: seq<Value>, v: Value, after: seq<Value>, bindings: seq<Value>, depth: nat)
    requires depth <= MAX_EXPR_DEPTH && |before| <= MAX_WORD32
    ensures Says(Arg(|before|), env.(args := before + [v] + after), bindings, depth) == Some(v)
    ensures Says(Config(|before|), env.(config := before + [v] + after), bindings, depth) == Some(v)
    ensures Says(Arg(|before|), env.(args := before), bindings, depth) == None
    ensures Says(Config(|before|), env.(config := before), bindings, depth) == None
  {
    hide Says;
    HandedTermsSay(Arg(|before|), env.(args := before + [v] + after), bindings, depth);
    HandedTermsSay(Config(|before|), env.(config := before + [v] + after), bindings, depth);
    HandedTermsSay(Arg(|before|), env.(args := before), bindings, depth);
    HandedTermsSay(Config(|before|), env.(config := before), bindings, depth);
  }

  lemma {:induction false} LiteralsSay(v: Value, env: Inputs, bindings: seq<Value>, depth: nat)
    requires depth <= MAX_EXPR_DEPTH
    ensures Says(Literal(v), env, bindings, depth) == Some(v)
  {
    hide Says;
    HandedTermsSay(Literal(v), env, bindings, depth);
  }

  lemma {:induction false} SelectionsSay(cond: Expr, x: Expr, y: Expr, env: Inputs, bindings: seq<Value>, depth: nat)
    requires depth <= MAX_EXPR_DEPTH
    ensures Says(If(cond, x, y), env, bindings, depth) ==
            var c := Says(cond, env, bindings, depth + 1);
            if c == Some(VBool(true)) then Says(x, env, bindings, depth + 1)
            else if c == Some(VBool(false)) then Says(y, env, bindings, depth + 1)
            else None
  {
    var e := If(cond, x, y);
    var c, p, q := Eval(cond, env, bindings, depth + 1), Eval(x, env, bindings, depth + 1),
        Eval(y, env, bindings, depth + 1);
    assert Answered(e, env, bindings, depth + 1) == SelectFrom(c, p, q);
    assert Eval(e, env, bindings, depth) == SelectFrom(c, p, q).Plus(Toll(e));
    hide Eval;
  }

  /** A selection on a constant is the arm the constant picks. */
  lemma {:induction false} SelectionsPick(b: bool, x: Expr, y: Expr, env: Inputs, bindings: seq<Value>, depth: nat)
    requires depth < MAX_EXPR_DEPTH
    ensures Says(If(Literal(VBool(b)), x, y), env, bindings, depth) ==
            Says(if b then x else y, env, bindings, depth + 1)
  {
    hide Says;
    LiteralsSay(VBool(b), env, bindings, depth + 1);
    SelectionsSay(Literal(VBool(b)), x, y, env, bindings, depth);
  }

  lemma {:induction false} OperandsSay(e: Expr, env: Inputs, bindings: seq<Value>, depth: nat)
    requires HasOne(e) && depth <= MAX_EXPR_DEPTH
    ensures Says(e, env, bindings, depth) ==
            var v := Says(e.inner, env, bindings, depth + 1);
            if v.Some? then OfOne(e, v.value) else None
  {
    hide Says, Means, Tall, OfOne;
    AnswersAreMeanings(e, env, bindings, depth);
    AnswersAreMeanings(e.inner, env, bindings, depth + 1);
    OneMeans(e, env, Inside(bindings));
  }

  /** Negating selects the other constant. */
  lemma {:induction false} NegationsSelect(e: Expr, env: Inputs, bindings: seq<Value>, depth: nat)
    requires depth <= MAX_EXPR_DEPTH
    ensures Says(Not(e), env, bindings, depth) ==
            Says(If(e, Literal(VBool(false)), Literal(VBool(true))), env, bindings, depth)
  {
    hide Says;
    OperandsSay(Not(e), env, bindings, depth);
    SelectionsSay(e, Literal(VBool(false)), Literal(VBool(true)), env, bindings, depth);
    if depth < MAX_EXPR_DEPTH {
      LiteralsSay(VBool(false), env, bindings, depth + 1);
      LiteralsSay(VBool(true), env, bindings, depth + 1);
    } else {
      NothingBelow(e, env, bindings, depth + 1);
    }
  }

  lemma {:induction false} NothingBelow(e: Expr, env: Inputs, bindings: seq<Value>, depth: nat)
    requires depth > MAX_EXPR_DEPTH
    ensures Says(e, env, bindings, depth) == None
  {}

  /** Every term of a sequence answers, its value in its place. */
  predicate AllSay(es: seq<Expr>, env: Inputs, bindings: seq<Value>, depth: nat, vs: seq<Value>) {
    |vs| == |es| && forall i :: 0 <= i < |es| ==> Says(es[i], env, bindings, depth) == Some(vs[i])
  }

  lemma {:induction false} KeptInOrder(es: seq<Expr>, env: Inputs, bindings: seq<Value>, depth: nat, vs: seq<Value>)
    ensures EvalAll(es, env, bindings, depth).result == Ok(vs) <==> AllSay(es, env, bindings, depth, vs)
    decreases |es|
  {
    if es != [] {
      var p, rest := Eval(es[0], env, bindings, depth), EvalAll(es[1..], env, bindings, depth);
      assert EvalAll(es, env, bindings, depth) == Then(Kept(p), rest);
      hide Eval, EvalAll;
      if vs != [] {
        KeptInOrder(es[1..], env, bindings, depth, vs[1..]);
        assert vs == [vs[0]] + vs[1..];
        if AllSay(es, env, bindings, depth, vs) {
          assert Says(es[0], env, bindings, depth) == Some(vs[0]);
          assert forall i :: 0 <= i < |es[1..]| ==> es[1..][i] == es[i + 1] && vs[1..][i] == vs[i + 1];
        }
        if EvalAll(es, env, bindings, depth).result == Ok(vs) {
          assert vs[1..] == rest.result.value;
        }
      }
    }
  }

  /** A list or tuple of terms answers the sequence of their answers. */
  lemma {:induction false} SequencesSay(es: seq<Expr>, env: Inputs, bindings: seq<Value>, depth: nat, vs: seq<Value>)
    requires depth <= MAX_EXPR_DEPTH
    ensures Says(ListOf(es), env, bindings, depth) == Some(VList(vs)) <==> AllSay(es, env, bindings, depth + 1, vs)
    ensures Says(TupleOf(es), env, bindings, depth) == Some(VTuple(vs)) <==> AllSay(es, env, bindings, depth + 1, vs)
  {
    hide AllSay;
    KeptInOrder(es, env, bindings, depth + 1, vs);
    GatheringsSay(ListOf(es), env, bindings, depth);
    GatheringsSay(TupleOf(es), env, bindings, depth);
    hide EvalAll, Says;
  }

  lemma {:induction false} GatheringsSay(e: Expr, env: Inputs, bindings: seq<Value>, depth: nat)
    requires Gathers(e) && depth <= MAX_EXPR_DEPTH
    ensures var kept := EvalAll(e.elements, env, bindings, depth + 1).result;
            Says(e, env, bindings, depth) == if kept.Ok? then Some(GatherOf(e, kept.value)) else None
  {
    var kept := EvalAll(e.elements, env, bindings, depth + 1);
    assert Build(e, env, bindings, depth + 1) == GatherFrom(e, kept);
    hide EvalAll, Build;
    assert Eval(e, env, bindings, depth) == Owned(Build(e, env, bindings, depth + 1)).Plus(Toll(e));
  }

  /** Projecting a part gives back the term it was made from. */
  lemma {:induction false} PartsProjectBack(
      es: seq<Expr>, env: Inputs, bindings: seq<Value>, depth: nat, vs: seq<Value>, i: Word32)
    requires depth < MAX_EXPR_DEPTH && AllSay(es, env, bindings, depth + 2, vs)
    ensures Says(Field(TupleOf(es), i), env, bindings, depth) ==
            if i < |es| then Says(es[i], env, bindings, depth + 2) else None
    ensures Says(Only(ListOf(es)), env, bindings, depth) ==
            if |es| == 1 then Says(es[0], env, bindings, depth + 2) else None
    ensures |es| <= MAX_WORD64 ==> Says(Len(ListOf(es)), env, bindings, depth) == Some(VU64(|es|))
  {
    hide Says;
    SequencesSay(es, env, bindings, depth + 1, vs);
    OperandsSay(Field(TupleOf(es), i), env, bindings, depth);
    OperandsSay(Only(ListOf(es)), env, bindings, depth);
    OperandsSay(Len(ListOf(es)), env, bindings, depth);
  }

  lemma {:induction false} TwoOperandsSay(e: Expr, env: Inputs, bindings: seq<Value>, depth: nat)
    requires HasTwo(e) && depth <= MAX_EXPR_DEPTH
    ensures Says(e, env, bindings, depth) ==
            var a, b := Says(Former(e), env, bindings, depth + 1), Says(Latter(e), env, bindings, depth + 1);
            if a.Some? && b.Some? then OfTwo(e, a.value, b.value) else None
  {
    hide Says, Means, Tall, OfTwo;
    AnswersAreMeanings(e, env, bindings, depth);
    AnswersAreMeanings(Former(e), env, bindings, depth + 1);
    AnswersAreMeanings(Latter(e), env, bindings, depth + 1);
    TwoMeans(e, env, Inside(bindings));
  }

  lemma {:induction false} ComputationsSay(x: Expr, y: Expr, env: Inputs, bindings: seq<Value>, depth: nat)
    requires depth <= MAX_EXPR_DEPTH
    ensures var a, b := Says(x, env, bindings, depth + 1), Says(y, env, bindings, depth + 1);
            var both := a.Some? && b.Some?;
            && Says(Add(x, y), env, bindings, depth) == (if both then OfTwo(Add(x, y), a.value, b.value) else None)
            && Says(Lt(x, y), env, bindings, depth) == (if both then OfTwo(Lt(x, y), a.value, b.value) else None)
            && Says(Eq(x, y), env, bindings, depth) == (if both then OfTwo(Eq(x, y), a.value, b.value) else None)
  {
    hide Says, OfTwo;
    TwoOperandsSay(Add(x, y), env, bindings, depth);
    TwoOperandsSay(Lt(x, y), env, bindings, depth);
    TwoOperandsSay(Eq(x, y), env, bindings, depth);
  }

  /** Packing two words keeps both: one is the quotient and the other the remainder. */
  lemma {:induction false} PacksUnpack(hi: Expr, lo: Expr, env: Inputs, bindings: seq<Value>, depth: nat, n: Word128)
    requires depth <= MAX_EXPR_DEPTH
    ensures Says(Pack(hi, lo), env, bindings, depth) == Some(VU128(n)) <==>
            && Says(hi, env, bindings, depth + 1) == Some(VU64(n / 0x1_0000_0000_0000_0000))
            && Says(lo, env, bindings, depth + 1) == Some(VU64(n % 0x1_0000_0000_0000_0000))
  {
    hide Says;
    TwoOperandsSay(Pack(hi, lo), env, bindings, depth);
  }

  lemma {:induction false} SumsAndOrderOf(x: Expr, y: Expr, a: Value, b: Value)
    ensures OfTwo(Add(x, y), a, b) == OfTwo(Add(y, x), b, a)
    ensures var less, more, same := OfTwo(Lt(x, y), a, b), OfTwo(Lt(y, x), b, a), OfTwo(Eq(x, y), a, b);
            && less.Some? == more.Some?
            && (less.Some? ==> OneOf(less, more, same))
  {}

  /** Exactly one of three verdicts is true. */
  predicate OneOf(a: Option<Value>, b: Option<Value>, c: Option<Value>) {
    var yes, no := Some(VBool(true)), Some(VBool(false));
    (a == yes && b == c == no) || (b == yes && a == c == no) || (c == yes && a == b == no)
  }

  /** A sum does not mind its operands' order, and the order is strict and total within a width. */
  lemma {:induction false} SumsAndOrder(x: Expr, y: Expr, env: Inputs, bindings: seq<Value>, depth: nat)
    requires depth <= MAX_EXPR_DEPTH
    ensures Says(Add(x, y), env, bindings, depth) == Says(Add(y, x), env, bindings, depth)
    ensures var less, more, same := Says(Lt(x, y), env, bindings, depth), Says(Lt(y, x), env, bindings, depth),
                Says(Eq(x, y), env, bindings, depth);
            && less.Some? == more.Some?
            && (less.Some? ==> OneOf(less, more, same))
  {
    hide Says, OfTwo, OneOf, HasTwo;
    var a, b := Says(x, env, bindings, depth + 1), Says(y, env, bindings, depth + 1);
    if a.Some? && b.Some? {
      SumsAndOrderOf(x, y, a.value, b.value);
    }
    ComputationsSay(x, y, env, bindings, depth);
    ComputationsSay(y, x, env, bindings, depth);
  }
}
