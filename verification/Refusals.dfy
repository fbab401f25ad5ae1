/** Why a term refuses: whichever operand refused first, or else what it made of its operands. */
module Refusals {
  import opened Vocabulary
  import opened Syntax
  import opened EffectSets
  import opened Evaluation
  import opened Clauses
  import opened Algebra
  import opened Meaning

  /** What a term refuses with, where it does not answer. */
  function Refusal(e: Expr, env: Inputs, bindings: seq<Value>, depth: nat): Option<EvalError> {
    Blame(Eval(e, env, bindings, depth).result)
  }

  function OrElse(first: Option<EvalError>, second: Option<EvalError>): Option<EvalError> {
    if first.Some? then first else second
  }

  function Wanted(kind: KindName, v: Value): Option<EvalError> { Some(TypeMismatch(kind, v.Kind())) }

  /** Why an input is refused: it names a position past the end, and the refusal names the position. */
  function WhyNone(e: Expr, env: Inputs, bindings: seq<Value>): Option<EvalError> {
    match e
    case Arg(i) => if i < |env.args| then None else Some(ArgOutOfRange(i))
    case Config(i) => if i < |env.config| then None else Some(ConfigOutOfRange(i))
    case Binding(i) => if i < |bindings| then None else Some(BindingOutOfRange(i))
    case SelfRecord => if env.leaf.Some? then None else Some(RecordMalformed)
    case _ => None
  }

  /** Why a term over one operand refuses what the operand answers. */
  function WhyOne(e: Expr, v: Value): Option<EvalError> {
    match e
    case Field(_, i) =>
      if !v.VTuple? then Wanted(TupleKind, v) else if i < |v.fields| then None else Some(FieldOutOfRange(i, |v.fields|))
    case ResourceOf(_) => if v.VBucket? then None else Wanted(BucketKind, v)
    case IdsOf(_) =>
      if !v.VBucket? then Wanted(BucketKind, v)
      else if v.content.InstanceEdge? then None
      else Some(TypeMismatch(InstanceBucketKind, BucketKind))
    case Len(_) => if v.VList? then None else Wanted(ListKind, v)
    case Only(_) =>
      if !v.VList? then Wanted(ListKind, v) else if |v.elements| == 1 then None else Some(NotSingleton(|v.elements|))
    case Not(_) => if v.VBool? then None else Wanted(BoolKind, v)
    case _ => None
  }

  /** Why a term refuses its first operand before the second is read. */
  function WhyFirst(e: Expr, a: Value): Option<EvalError> {
    match e
    case Pack(_, _) => if a.VU64? then None else Wanted(U64Kind, a)
    case Lookup(_, _) => if a.VList? then None else Wanted(ListKind, a)
    case Contains(_, _) => if a.VList? then None else Wanted(ListKind, a)
    case NfBucket(_, _) =>
      if !a.VAddress? then Wanted(AddressKind, a)
      else if a.address.IsResource() then None
      else Some(NotAResource(a.address.class_))
    case _ => None
  }

  /** Why a term refuses the two operands together. */
  function WhyBoth(e: Expr, a: Value, b: Value): Option<EvalError> {
    match e
    case Add(_, _) => OrElse(WhyUnordered(a, b), if OfTwo(e, a, b).Some? then None else Some(AddOverflow))
    case Lt(_, _) => WhyUnordered(a, b)
    case Eq(_, _) =>
      if HoldsBucket(a) || HoldsBucket(b) then Some(TypeMismatch(ComparableKind, BucketKind))
      else if a.Kind() != b.Kind() then Some(TypeMismatch(a.Kind(), b.Kind()))
      else None
    case Pack(_, _) => if b.VU64? then None else Wanted(U64Kind, b)
    case Lookup(_, _) =>
      if OfTwo(e, a, b).Some? || !a.VList? then None
      else if Stop(a.elements, b) == |a.elements| then Some(LookupMiss)
      else Some(LookupNotPairs)
    case Contains(_, _) => if OfTwo(e, a, b).Some? || !a.VList? then None else Some(LookupNotPairs)
    case NfBucket(_, _) => if !b.VList? then Wanted(ListKind, b) else WhyIds(b.elements, [])
    case _ => None
  }

  /** Integers are ordered and summed within a width, and the second operand is the one that is wrong. */
  function WhyUnordered(a: Value, b: Value): Option<EvalError> {
    if a.VU64? then if b.VU64? then None else Wanted(U64Kind, b)
    else if a.VU128? then if b.VU128? then None else Wanted(U128Kind, b)
    else Wanted(IntegerKind, a)
  }

  /** The first element that is no word or repeats one, or the whole list where it is too long. */
  function WhyIds(values: seq<Value>, seen: seq<Word64>): Option<EvalError>
    decreases |values|
  {
    if values == [] then if |seen| > 64 then Some(TooManyIds(|seen|)) else None
    else if !values[0].VU64? then Wanted(U64Kind, values[0])
    else if values[0].word in seen then Some(DuplicateId(values[0].word))
    else WhyIds(values[1..], seen + [values[0].word])
  }

  function Blame<T>(r: Outcome<T>): Option<EvalError> { if r.Err? then Some(r.error) else None }

  /** What two operands are refused for, the first before the second. */
  function Blames(e: Expr, p: Outcome<Answer>, q: Outcome<Answer>): Option<EvalError> {
    OrElse(OrElse(Blame(p), if p.Ok? then WhyFirst(e, p.value.value) else None),
           OrElse(Blame(q), if p.Ok? && q.Ok? then WhyBoth(e, p.value.value, q.value.value) else None))
  }

  lemma {:induction false} RefusalsOfInputs(e: Expr, env: Inputs, bindings: seq<Value>, depth: nat)
    requires (Hands(e) || Draws(e)) && depth <= MAX_EXPR_DEPTH
    ensures Refusal(e, env, bindings, depth) == WhyNone(e, env, bindings)
  {
    assert Eval(e, env, bindings, depth) == Answered(e, env, bindings, depth + 1).Plus(Toll(e));
    if Draws(e) {
      NoneBuilds(e, env, bindings, depth + 1);
      assert Answered(e, env, bindings, depth + 1) == Owned(Build(e, env, bindings, depth + 1));
    } else {
      assert Answered(e, env, bindings, depth + 1) == Handed(HandedOut(e, env, bindings));
    }
    hide Eval, Build, Answered, Walked;
  }

  /** A term over one operand refuses as the operand does, or for what the operand answers. */
  lemma {:induction false} RefusalsOfOne(e: Expr, env: Inputs, bindings: seq<Value>, depth: nat)
    requires HasOne(e) && depth <= MAX_EXPR_DEPTH
    ensures Refusal(e, env, bindings, depth) ==
            var v := Says(e.inner, env, bindings, depth + 1);
            OrElse(Refusal(e.inner, env, bindings, depth + 1), if v.Some? then WhyOne(e, v.value) else None)
  {
    var operand := Eval(e.inner, env, bindings, depth + 1);
    assert Build(e, env, bindings, depth + 1) == if Reads(e) then ReadFrom(e, operand) else PartFrom(e, operand);
    assert Answered(e, env, bindings, depth + 1) == Owned(Build(e, env, bindings, depth + 1));
    assert Eval(e, env, bindings, depth) == Owned(Build(e, env, bindings, depth + 1)).Plus(Toll(e));
    hide Eval, Build, Walked;
  }

  lemma {:induction false} BuiltTermsRefuse(e: Expr, env: Inputs, bindings: seq<Value>, depth: nat)
    requires Builds(e) && depth <= MAX_EXPR_DEPTH
    ensures Refusal(e, env, bindings, depth) == Blame(Build(e, env, bindings, depth + 1).result)
  {
    hide Build, Walked, Toll;
    assert Answered(e, env, bindings, depth + 1) == Owned(Build(e, env, bindings, depth + 1));
  }

  /** A term over two operands refuses as the first does, or for it where it is judged alone, then
      as the second does, or for both. */
  lemma {:induction false} RefusalsOfTwo(e: Expr, env: Inputs, bindings: seq<Value>, depth: nat)
    requires HasTwo(e) && depth <= MAX_EXPR_DEPTH
    ensures Refusal(e, env, bindings, depth) ==
            var p, q := Eval(Former(e), env, bindings, depth + 1), Eval(Latter(e), env, bindings, depth + 1);
            Blames(e, p.result, q.result)
  {
    var p, q := Eval(Former(e), env, bindings, depth + 1), Eval(Latter(e), env, bindings, depth + 1);
    hide Eval, Build, Answered, Walked, TwoFrom, Blames, Former, Latter, Toll;
    TwoBuilds(e, env, bindings, depth + 1);
    BuiltTermsRefuse(e, env, bindings, depth);
    TwoRefuse(e, p, q);
  }

  lemma {:induction false} TwoRefuse(e: Expr, p: Priced<Answer>, q: Priced<Answer>)
    requires HasTwo(e)
    ensures Blame(TwoFrom(e, p, q).result) == Blames(e, p.result, q.result)
  {
    hide Walked, HoldsBucket, Blames, ScanFrom, ComputeFrom, EqualFrom, PackFrom, EdgeFrom;
    if Scans(e) {
      ScansRefuse(e, p, q);
    } else if e.NfBucket? {
      EdgesRefuse(e, p, q);
    } else {
      OthersRefuse(e, p, q);
    }
  }

  lemma {:induction false} ScansRefuse(e: Expr, p: Priced<Answer>, q: Priced<Answer>)
    requires Scans(e)
    ensures Blame(ScanFrom(e, p, q).result) == Blames(e, p.result, q.result)
  {
    hide Walked, HoldsBucket, Find, Stop;
    if p.result.Ok? && q.result.Ok? && p.result.value.value.VList? {
      FindRefuses(p.result.value.value.elements, q.result.value.value);
    }
  }

  lemma {:induction false} EdgesRefuse(e: Expr, p: Priced<Answer>, q: Priced<Answer>)
    requires e.NfBucket?
    ensures Blame(EdgeFrom(p, q).result) == Blames(e, p.result, q.result)
  {
    hide Walked, HoldsBucket, IdsAfter, WhyIds;
    if p.result.Ok? && q.result.Ok? && q.result.value.value.VList? {
      IdsRefuse(q.result.value.value.elements, []);
    }
  }

  lemma {:induction false} OthersRefuse(e: Expr, p: Priced<Answer>, q: Priced<Answer>)
    requires Computes(e) || e.Eq? || e.Pack?
    ensures Computes(e) ==> Blame(ComputeFrom(e, p, q).result) == Blames(e, p.result, q.result)
    ensures e.Eq? ==> Blame(EqualFrom(p, q).result) == Blames(e, p.result, q.result)
    ensures e.Pack? ==> Blame(PackFrom(p, q).result) == Blames(e, p.result, q.result)
  {
    hide Walked, HoldsBucket;
  }

  lemma {:induction false} FindRefuses(pairs: seq<Value>, key: Value)
    ensures var i, found := Stop(pairs, key), Find(pairs, key).result;
            && i <= |pairs|
            && (i == |pairs| ==> found == Ok(None))
            && (i < |pairs| && IsPair(pairs[i]) ==> found == Ok(Some(pairs[i].fields[1])))
            && (i < |pairs| && !IsPair(pairs[i]) ==> found == Err(LookupNotPairs))
  {
    hide Walked, Find;
    var i := ScansStopAtTheFirst(pairs, key);
    assert i == Stop(pairs, key);
  }

  lemma {:induction false} IdsRefuse(values: seq<Value>, seen: seq<Word64>)
    ensures Blame(IdsAfter(values, seen)) == WhyIds(values, seen)
    decreases |values|
  {
    if values != [] && values[0].VU64? {
      IdsRefuse(values[1..], seen + [values[0].word]);
    }
  }

  /** A selection or a decision refuses as its condition does, or for one that is no flag, and
      otherwise only as the operand it goes on to. */
  lemma {:induction false} RefusalsOfChoices(e: Expr, env: Inputs, bindings: seq<Value>, depth: nat)
    requires e.If? && depth <= MAX_EXPR_DEPTH
    ensures Refusal(e, env, bindings, depth) ==
            var c := Says(e.cond, env, bindings, depth + 1);
            OrElse(Refusal(e.cond, env, bindings, depth + 1),
                   if c.None? then None
                   else if !c.value.VBool? then Wanted(BoolKind, c.value)
                   else Refusal(if c.value.flag then e.then_ else e.otherwise, env, bindings, depth + 1))
  {
    var c, p, q := Eval(e.cond, env, bindings, depth + 1), Eval(e.then_, env, bindings, depth + 1),
        Eval(e.otherwise, env, bindings, depth + 1);
    assert Answered(e, env, bindings, depth + 1) == SelectFrom(c, p, q);
    assert Eval(e, env, bindings, depth) == SelectFrom(c, p, q).Plus(Toll(e));
    hide Eval;
  }

  lemma {:induction false} RefusalsOfDecisions(e: Expr, env: Inputs, bindings: seq<Value>, depth: nat)
    requires Decides(e) && depth <= MAX_EXPR_DEPTH
    ensures Refusal(e, env, bindings, depth) ==
            var l, r := Says(e.left, env, bindings, depth + 1), Says(e.right, env, bindings, depth + 1);
            OrElse(Refusal(e.left, env, bindings, depth + 1),
                   if l.None? then None
                   else if !l.value.VBool? then Wanted(BoolKind, l.value)
                   else if l.value.flag == e.Or? then None
                   else OrElse(Refusal(e.right, env, bindings, depth + 1),
                               if r.Some? && !r.value.VBool? then Wanted(BoolKind, r.value) else None))
  {
    var p, q := Eval(e.left, env, bindings, depth + 1), Eval(e.right, env, bindings, depth + 1);
    assert Build(e, env, bindings, depth + 1) == ShortFrom(p, q, e.Or?);
    assert Answered(e, env, bindings, depth + 1) == Owned(Build(e, env, bindings, depth + 1));
    assert Eval(e, env, bindings, depth) == Owned(Build(e, env, bindings, depth + 1)).Plus(Toll(e));
    hide Eval, Build, Walked;
  }

  /** Past the nesting bound every term refuses, and says so. */
  lemma {:induction false} RefusalsOfDepth(e: Expr, env: Inputs, bindings: seq<Value>, depth: nat)
    ensures depth > 32 ==> Refusal(e, env, bindings, depth) == Some(ExpressionTooDeep)
  {}

  // -------------------------------------------------------------------- clauses

  function Full(d: Draft): Option<EvalError> { if d.work >= 4096 then Some(TooManyEffects) else None }

  /** A reserve past its width is an access that does not fit, whatever else the set holds. */
  function Unfit(d: Draft, placed: Placed): Option<EvalError> {
    if Insert(d.set_, Bounded(Effect(placed.target, placed.mode), placed.width)).Ok? then None
    else Some(EvalError.ReserveOverflow)
  }

  /** Why a line that is taken is refused: an access is placed before it is counted, and carries
      before it lands; a requirement and a proof are counted before they are read. */
  function WhyLine(c: Clause, parts: Parts, bindings: seq<Value>, d: Draft): Option<EvalError>
    requires !c.ForEach?
  {
    match c
    case Access(_, target, mode, denomination, reach) =>
      var placed, borne := parts.placed(target, mode, bindings).result,
                           parts.borne(target, denomination, reach, bindings).result;
      OrElse(OrElse(Blame(placed), Full(d)), OrElse(Blame(borne), if placed.Ok? then Unfit(d, placed.value) else None))
    case Requires(_, rule) => OrElse(Full(d), Blame(parts.condition(rule, bindings).result))
    case Proves(_, claim) =>
      var proven := parts.claim(claim, bindings).result;
      OrElse(OrElse(Full(d), Blame(proven)),
             if proven.Ok? && |d.proves| + (if proven.value.instance.Some? then 2 else 1) > 8 then Some(ProvesPastCap)
             else None)
  }

  /** A clause refuses for the depth it sits at, then as its guard does, then as its line does. */
  lemma {:induction false} RefusalsOfClauses(
    c: Clause, parts: Parts, bindings: seq<Value>, depth: nat, index: Word32, d: Draft)
    requires !c.ForEach?
    ensures var taken := if c.guard.None? then Ok(true) else parts.guard(c.guard.value, bindings).result;
            Blame(RunClause(c, parts, bindings, depth, index, d).result) ==
            OrElse(OrElse(if depth > 4 then Some(ClausesTooDeep) else None, Blame(taken)),
                   if taken == Ok(true) then WhyLine(c, parts, bindings, d) else None)
  {
    hide Insert;
  }
}
