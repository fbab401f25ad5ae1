/** What a term means, said without meters, refusals or nesting: the value it stands for, the
    subterms that takes reading, and what reading them costs. */
module Meaning {
  import opened Vocabulary
  import opened Syntax
  import opened Evaluation
  import opened Algebra

  // ------------------------------------------------------------------------ values

  /** The elements of the loops around a term, the innermost first. */
  function Inside(bindings: seq<Value>): (scope: seq<Value>)
    ensures |scope| == |bindings|
  {
    if bindings == [] then [] else [bindings[|bindings| - 1]] + Inside(bindings[..|bindings| - 1])
  }

  function At(values: seq<Value>, i: nat): Option<Value> { if i < |values| then Some(values[i]) else None }

  /** How far down a table a scan for `key` gets: to the first entry that is no pair or is under it. */
  function Stop(pairs: seq<Value>, key: Value): (i: nat)
    ensures i <= |pairs|
    ensures forall j :: 0 <= j < i ==> IsPair(pairs[j]) && pairs[j].fields[0] != key
    ensures i < |pairs| ==> !IsPair(pairs[i]) || pairs[i].fields[0] == key
  {
    if pairs == [] || !IsPair(pairs[0]) || pairs[0].fields[0] == key then 0 else 1 + Stop(pairs[1..], key)
  }

  predicate AllWords(values: seq<Value>) { forall i :: 0 <= i < |values| ==> values[i].VU64? }

  function Ids(values: seq<Value>): seq<Word64>
    requires AllWords(values)
  {
    seq(|values|, i requires 0 <= i < |values| => values[i].word)
  }

  /** What a draw hashes to: the call's own identity, its node and the draw's number. */
  function Fresh(env: Inputs, draw: Word32): Bytes {
    env.seam.hash(FreshDomain, [env.identity, Le32(env.node), Le32(draw)])
  }

  /** What a term with no subterm stands for. */
  function OfNone(e: Expr, env: Inputs, scope: seq<Value>): Option<Value> {
    match e
    case Literal(v) => Some(v)
    case Arg(i) => At(env.args, i)
    case Config(i) => At(env.config, i)
    case Binding(i) => At(scope, i)
    case SelfAddr => Some(VAddress(env.self))
    case SelfRecord => if env.leaf.Some? then Some(VBytes(env.leaf.value)) else None
    case FreshId(draw) => Some(VU64(FromLe8(Seam.Lead(Fresh(env, draw), 8))))
    case FreshKey(draw) => Some(VKey(SubstateKey(env.self, Fresh(env, draw))))
    case _ => None
  }

  predicate HasOne(e: Expr) { e.Field? || e.ResourceOf? || e.IdsOf? || e.Len? || e.Only? || e.Not? }

  /** What a term over one operand stands for, the operand standing for `v`. */
  function OfOne(e: Expr, v: Value): Option<Value> {
    match (e, v)
    case (Field(_, i), VTuple(fields)) => At(fields, i)
    case (ResourceOf(_), VBucket(resource, _)) => Some(VAddress(resource))
    case (IdsOf(_), VBucket(_, InstanceEdge(ids))) => Some(VList(Words(ids)))
    case (Len(_), VList(vs)) => Some(VU64(if |vs| < 0x1_0000_0000_0000_0000 then |vs| else MAX_WORD64))
    case (Only(_), VList(vs)) => if |vs| == 1 then Some(vs[0]) else None
    case (Not(_), VBool(b)) => Some(VBool(!b))
    case _ => None
  }

  predicate HasTwo(e: Expr) { e.Add? || e.Lt? || e.Eq? || e.Pack? || e.NfBucket? || e.Lookup? || e.Contains? }

  function Former(e: Expr): Expr
    requires HasTwo(e)
  {
    Children(e)[0]
  }

  function Latter(e: Expr): Expr
    requires HasTwo(e)
  {
    Children(e)[1]
  }

  /** What a term over two operands stands for, the operands standing for `a` and `b`. */
  function OfTwo(e: Expr, a: Value, b: Value): Option<Value> {
    match (e, a, b)
    case (Add(_, _), VU64(m), VU64(n)) => if m + n < 0x1_0000_0000_0000_0000 then Some(VU64(m + n)) else None
    case (Add(_, _), VU128(m), VU128(n)) =>
      if m + n < 0x1_0000_0000_0000_0000_0000_0000_0000_0000 then Some(VU128(m + n)) else None
    case (Lt(_, _), VU64(m), VU64(n)) => Some(VBool(m < n))
    case (Lt(_, _), VU128(m), VU128(n)) => Some(VBool(m < n))
    case (Eq(_, _), _, _) =>
      if HoldsBucket(a) || HoldsBucket(b) || a.Kind() != b.Kind() then None else Some(VBool(a == b))
    case (Pack(_, _), VU64(high), VU64(low)) => Some(VU128(high * 0x1_0000_0000_0000_0000 + low))
    case (NfBucket(_, _), VAddress(resource), VList(vs)) =>
      if resource.IsResource() && AllWords(vs) && Distinct(Ids(vs)) && |vs| <= 64
      then Some(VBucket(resource, InstanceEdge(Ids(vs))))
      else None
    case (Lookup(_, _), VList(pairs), _) =>
      var i := Stop(pairs, b);
      if i < |pairs| && IsPair(pairs[i]) then Some(pairs[i].fields[1]) else None
    case (Contains(_, _), VList(pairs), _) =>
      var i := Stop(pairs, b);
      if i < |pairs| && !IsPair(pairs[i]) then None else Some(VBool(i < |pairs|))
    case _ => None
  }

  /** What a derivation stands for, its owner, slot and material standing for what they do. */
  function OfMaterial(e: Expr, env: Inputs, owner: Option<Value>, slot: Option<Word16>, vs: seq<Value>)
    : Option<Value>
  {
    var material := Encodings(env, vs);
    match (e, owner, slot)
    case (SelfResource(kind, _, grants), _, _) =>
      var issued := env.issued(kind, material, grants);
      if issued.Ok? then Some(VAddress(issued.value)) else None
    case (ChildKey(_, _, _), Some(VAddress(a)), Some(s)) =>
      Some(VKey(SubstateKey(a, env.seam.hash(ChildDomain, [a.ToBytes(), Le16(s)] + material))))
    case (OrderKey(_, s, _), Some(VAddress(a)), _) =>
      Some(VU128(FromBe16(Seam.Lead(env.seam.hash(OrderDomain, [a.ToBytes(), Le16(s)] + material), 16))))
    case _ => None
  }

  /** The value a term stands for over the elements around it, or nothing where it stands for none. */
  function Means(e: Expr, env: Inputs, scope: seq<Value>): Option<Value>
    decreases e
  {
    if e.If? then
      var c := Means(e.cond, env, scope);
      if c == Some(VBool(true)) then Means(e.then_, env, scope)
      else if c == Some(VBool(false)) then Means(e.otherwise, env, scope)
      else None
    else if e.And? || e.Or? then
      var l := Means(e.left, env, scope);
      if l == Some(VBool(e.Or?)) then l
      else if l == Some(VBool(e.And?)) then TruthOf(Means(e.right, env, scope))
      else None
    else if HasOne(e) then
      var v := Means(e.inner, env, scope);
      if v.Some? then OfOne(e, v.value) else None
    else if HasTwo(e) then
      var a, b := Means(Former(e), env, scope), Means(Latter(e), env, scope);
      if a.Some? && b.Some? then OfTwo(e, a.value, b.value) else None
    else if e.ListOf? || e.TupleOf? then
      var vs := MeansAll(e.elements, env, scope);
      if vs.None? then None else Some(if e.ListOf? then VList(vs.value) else VTuple(vs.value))
    else if Derives(e) then
      var vs := MeansAll(e.material, env, scope);
      var owner := if e.SelfResource? then None else Means(e.owner, env, scope);
      var slot := if e.ChildKey? then SlotMeans(e.slot, true, env, scope) else None;
      if vs.None? then None else OfMaterial(e, env, owner, slot, vs.value)
    else OfNone(e, env, scope)
  }

  predicate Derives(e: Expr) { e.SelfResource? || e.ChildKey? || e.OrderKey? }

  function TruthOf(v: Option<Value>): Option<Value> { if v.Some? && v.value.VBool? then v else None }

  function MeansAll(es: seq<Expr>, env: Inputs, scope: seq<Value>): (vs: Option<seq<Value>>)
    ensures vs.Some? ==> |vs.value| == |es|
    decreases es
  {
    if es == [] then Some([])
    else
      match (Means(es[0], env, scope), MeansAll(es[1..], env, scope))
      case (Some(v), Some(vs)) => Some([v] + vs)
      case _ => None
  }

  /** A slot spelled out is itself; one an argument names is a package's own, or the vault's. */
  function SlotMeans(slot: SlotRef, point: bool, env: Inputs, scope: seq<Value>): Option<Word16>
    decreases slot
  {
    match slot
    case Fixed(s) => Some(s)
    case Reached(named) =>
      match Means(named, env, scope)
      case Some(VU64(n)) =>
        if PACKAGE_SLOT_BASE <= n < KERNEL_SLOT_BASE || n == (if point then VAULT else NF_VAULT) then Some(n) else None
      case _ => None
  }

  function Encodings(env: Inputs, vs: seq<Value>): seq<Bytes> {
    seq(|vs|, i requires 0 <= i < |vs| => env.seam.encode(vs[i]))
  }

  // ---------------------------------------------------- the terms read, and their price

  /** A meaning is read in place where some input or literal holds it, and built otherwise. */
  predicate InPlace(e: Expr, env: Inputs, scope: seq<Value>)
    decreases e
  {
    if e.If? then
      if Means(e.cond, env, scope) == Some(VBool(true)) then InPlace(e.then_, env, scope)
      else InPlace(e.otherwise, env, scope)
    else e.Literal? || e.Arg? || e.Config? || e.Binding?
  }

  /** The subterms reading a term reads: the arm taken and no other, and no right operand the
      left one settles. */
  function Consulted(e: Expr, env: Inputs, scope: seq<Value>): (read: seq<Expr>)
    ensures forall i :: 0 <= i < |read| ==> read[i] < e
  {
    if e.If? then [e.cond, if Means(e.cond, env, scope) == Some(VBool(true)) then e.then_ else e.otherwise]
    else if e.And? && Means(e.left, env, scope) == Some(VBool(false)) then [e.left]
    else if e.Or? && Means(e.left, env, scope) == Some(VBool(true)) then [e.left]
    else Children(e)
  }

  function Hashes(e: Expr): nat {
    match e
    case SelfResource(_, _, _) => 2
    case ChildKey(_, _, _) => 1
    case OrderKey(_, _, _) => 1
    case FreshId(_) => 1
    case FreshKey(_) => 1
    case _ => 0
  }

  function Size(v: Option<Value>): nat { if v.Some? then Walked(v.value) else 0 }

  /** Everything a term walks, a value for each time it does: what it builds, the part it copies
      out, what it keeps of values held in place, what it encodes, compares or probes with. */
  function Walks(e: Expr, env: Inputs, scope: seq<Value>): nat {
    if InPlace(e, env, scope) || e.If? then 0
    else Size(Means(e, env, scope)) + (if Copies(e) then Size(Means(e, env, scope)) else 0) + AlsoWalks(e, env, scope)
  }

  predicate Copies(e: Expr) { e.Field? || e.Only? || e.Lookup? }

  function AlsoWalks(e: Expr, env: Inputs, scope: seq<Value>): nat {
    match e
    case Lookup(table, probe) => Probes(Means(table, env, scope), Means(probe, env, scope))
    case Contains(table, probe) => Probes(Means(table, env, scope), Means(probe, env, scope))
    case Eq(left, right) => Size(Means(left, env, scope)) + Size(Means(right, env, scope))
    case ListOf(elements) => Keeps(elements, env, scope)
    case TupleOf(elements) => Keeps(elements, env, scope)
    case SelfResource(_, material, _) => Sizes(material, env, scope)
    case ChildKey(_, _, material) => Sizes(material, env, scope)
    case OrderKey(_, _, material) => Sizes(material, env, scope)
    case _ => 0
  }

  /** The probe walked once an entry a scan looks at. */
  function Probes(table: Option<Value>, probe: Option<Value>): nat {
    match (table, probe)
    case (Some(VList(pairs)), Some(key)) =>
      var i := Stop(pairs, key);
      Looks(if i < |pairs| then i + 1 else i, key)
    case _ => 0
  }

  function Keeps(es: seq<Expr>, env: Inputs, scope: seq<Value>): nat {
    if es == [] then 0
    else (if InPlace(es[0], env, scope) then Size(Means(es[0], env, scope)) else 0) + Keeps(es[1..], env, scope)
  }

  function Sizes(es: seq<Expr>, env: Inputs, scope: seq<Value>): nat {
    if es == [] then 0 else Size(Means(es[0], env, scope)) + Sizes(es[1..], env, scope)
  }

  /** A unit for every term read, eight for every hash run, and every walk taken. */
  function Price(e: Expr, env: Inputs, scope: seq<Value>): nat
    decreases e, 1, 0
  {
    1 + 8 * Hashes(e) + Walks(e, env, scope) + PriceAll(Consulted(e, env, scope), e, env, scope)
  }

  function PriceAll(es: seq<Expr>, top: Expr, env: Inputs, scope: seq<Value>): nat
    requires forall i :: 0 <= i < |es| ==> es[i] < top
    decreases top, 0, |es|
  {
    if es == [] then 0 else Price(es[0], env, scope) + PriceAll(es[1..], top, env, scope)
  }

  /** How deep the terms read nest. */
  function Tall(e: Expr, env: Inputs, scope: seq<Value>): nat
    decreases e, 1, 0
  {
    1 + TallAll(Consulted(e, env, scope), e, env, scope)
  }

  function TallAll(es: seq<Expr>, top: Expr, env: Inputs, scope: seq<Value>): nat
    requires forall i :: 0 <= i < |es| ==> es[i] < top
    decreases top, 0, |es|
  {
    if es == [] then 0 else Max(Tall(es[0], env, scope), TallAll(es[1..], top, env, scope))
  }

  function Max(a: nat, b: nat): nat { if a < b then b else a }

  lemma {:induction false} ReadOne(a: Expr, top: Expr, env: Inputs, scope: seq<Value>)
    requires a < top
    ensures PriceAll([a], top, env, scope) == Price(a, env, scope)
    ensures TallAll([a], top, env, scope) == Tall(a, env, scope)
  {
    assert [a][1..] == [];
  }

  lemma {:induction false} ReadMore(a: Expr, rest: seq<Expr>, top: Expr, env: Inputs, scope: seq<Value>)
    requires a < top && forall i :: 0 <= i < |rest| ==> rest[i] < top
    ensures PriceAll([a] + rest, top, env, scope) == Price(a, env, scope) + PriceAll(rest, top, env, scope)
    ensures TallAll([a] + rest, top, env, scope) == Max(Tall(a, env, scope), TallAll(rest, top, env, scope))
  {
    assert ([a] + rest)[1..] == rest;
  }

  // --------------------------------------------------------- evaluation finds the meaning

  /** The evaluator's verdict on a term: its meaning and its price, exactly where what it reads
      nests within the bound. */
  ghost predicate Finds(p: Priced<Answer>, e: Expr, env: Inputs, scope: seq<Value>, depth: nat) {
    && (p.result.Ok? <==>
          Means(e, env, scope).Some? && depth + Tall(e, env, scope) <= MAX_EXPR_DEPTH + 1)
    && (p.result.Ok? ==>
          && p.result.value == Answer(Means(e, env, scope).value, InPlace(e, env, scope))
          && p.units == Price(e, env, scope))
  }

  lemma {:induction false} InsideOut(bindings: seq<Value>, i: nat)
    requires i < |bindings|
    ensures Inside(bindings)[i] == bindings[|bindings| - 1 - i]
    decreases i
  {
    if i > 0 {
      InsideOut(bindings[..|bindings| - 1], i - 1);
    }
  }

  lemma {:induction false} NoneMeaning(e: Expr, env: Inputs, scope: seq<Value>)
    requires Hands(e) || Draws(e)
    ensures Means(e, env, scope) == OfNone(e, env, scope)
    ensures InPlace(e, env, scope) == Hands(e)
    ensures Walks(e, env, scope) == if Hands(e) then 0 else Size(OfNone(e, env, scope))
  {
    hide OfNone, Walked;
  }

  lemma {:induction false} NoneConsulted(e: Expr, env: Inputs, scope: seq<Value>)
    requires Hands(e) || Draws(e)
    ensures Consulted(e, env, scope) == []
    ensures Toll(e) == 1 + 8 * Hashes(e)
  {}

  lemma {:induction false} NoneMeans(e: Expr, env: Inputs, scope: seq<Value>)
    requires Hands(e) || Draws(e)
    ensures Means(e, env, scope) == OfNone(e, env, scope)
    ensures InPlace(e, env, scope) == Hands(e)
    ensures Price(e, env, scope) == Toll(e) + (if Hands(e) then 0 else Size(OfNone(e, env, scope)))
    ensures Tall(e, env, scope) == 1
  {
    hide OfNone, Walked, Means, Consulted, InPlace, Walks, PriceAll, TallAll;
    NoneMeaning(e, env, scope);
    NoneConsulted(e, env, scope);
    EmptyReads(e, env, scope);
  }

  lemma {:induction false} HandingFinds(e: Expr, env: Inputs, bindings: seq<Value>, depth: nat)
    requires Hands(e) && depth <= MAX_EXPR_DEPTH
    ensures Finds(Eval(e, env, bindings, depth), e, env, Inside(bindings), depth)
  {
    hide Means, InPlace, Price, Tall;
    NoneMeans(e, env, Inside(bindings));
    if e.Binding? && e.index < |bindings| {
      InsideOut(bindings, e.index);
    }
  }

  lemma {:induction false} SelectionsMean(e: Expr, env: Inputs, scope: seq<Value>)
    requires e.If?
    ensures var c := Means(e.cond, env, scope);
            var arm := if c == Some(VBool(true)) then e.then_ else e.otherwise;
            && Means(e, env, scope) == (if c.Some? && c.value.VBool? then Means(arm, env, scope) else None)
            && InPlace(e, env, scope) == InPlace(arm, env, scope)
            && Price(e, env, scope) == 1 + Price(e.cond, env, scope) + Price(arm, env, scope)
            && Tall(e, env, scope) == 1 + Max(Tall(e.cond, env, scope), Tall(arm, env, scope))
  {
    hide PriceAll, TallAll;
    var arm := Consulted(e, env, scope)[1];
    ReadMore(e.cond, [arm], e, env, scope);
    ReadOne(arm, e, env, scope);
    assert Consulted(e, env, scope) == [e.cond] + [arm];
  }

  lemma {:induction false} SelectingFinds(e: Expr, env: Inputs, bindings: seq<Value>, depth: nat)
    requires e.If? && depth <= MAX_EXPR_DEPTH
    requires Finds(Eval(e.cond, env, bindings, depth + 1), e.cond, env, Inside(bindings), depth + 1)
    requires Finds(Eval(e.then_, env, bindings, depth + 1), e.then_, env, Inside(bindings), depth + 1)
    requires Finds(Eval(e.otherwise, env, bindings, depth + 1), e.otherwise, env, Inside(bindings), depth + 1)
    ensures Finds(Eval(e, env, bindings, depth), e, env, Inside(bindings), depth)
  {
    hide Means, InPlace, Price, Tall;
    SelectionsMean(e, env, Inside(bindings));
    assert Eval(e, env, bindings, depth) ==
           SelectFrom(Eval(e.cond, env, bindings, depth + 1), Eval(e.then_, env, bindings, depth + 1),
                      Eval(e.otherwise, env, bindings, depth + 1)).Plus(1);
    hide Eval;
  }

  /** What building a term has to find: all of its price but its toll and the walk of what it built. */
  ghost predicate FindsBuilt(p: Priced<Value>, e: Expr, env: Inputs, scope: seq<Value>, depth: nat) {
    && (p.result.Ok? <==>
          Means(e, env, scope).Some? && depth + Tall(e, env, scope) <= MAX_EXPR_DEPTH + 1)
    && (p.result.Ok? ==>
          && p.result.value == Means(e, env, scope).value
          && Toll(e) + p.units + Walked(p.result.value) == Price(e, env, scope))
  }

  lemma {:induction false} BuiltIsNotInPlace(e: Expr, env: Inputs, scope: seq<Value>)
    requires Builds(e)
    ensures !InPlace(e, env, scope)
  {}

  lemma {:induction false} OwningFinds(e: Expr, env: Inputs, bindings: seq<Value>, depth: nat)
    requires Builds(e) && depth <= MAX_EXPR_DEPTH
    requires FindsBuilt(Build(e, env, bindings, depth + 1), e, env, Inside(bindings), depth)
    ensures Finds(Eval(e, env, bindings, depth), e, env, Inside(bindings), depth)
  {
    hide Build, Means, Tall, Price, InPlace;
    BuiltIsNotInPlace(e, env, Inside(bindings));
    assert Answered(e, env, bindings, depth + 1) == Owned(Build(e, env, bindings, depth + 1));
  }

  lemma {:induction false} NoneBuilds(e: Expr, env: Inputs, bindings: seq<Value>, depth: nat)
    requires Draws(e)
    ensures Build(e, env, bindings, depth) == Priced(Drawn(e, env), 0)
  {}

  lemma {:induction false} DrawingFinds(e: Expr, env: Inputs, bindings: seq<Value>, depth: nat)
    requires Draws(e) && depth <= MAX_EXPR_DEPTH
    ensures FindsBuilt(Build(e, env, bindings, depth + 1), e, env, Inside(bindings), depth)
  {
    hide Walked, Means, Price, Tall, InPlace, Build;
    NoneMeans(e, env, Inside(bindings));
    NoneBuilds(e, env, bindings, depth + 1);
  }

  lemma {:induction false} OneMeans(e: Expr, env: Inputs, scope: seq<Value>)
    requires HasOne(e)
    ensures var v := Means(e.inner, env, scope);
            var m := Means(e, env, scope);
            && m == (if v.Some? then OfOne(e, v.value) else None)
            && Price(e, env, scope) == 1 + Price(e.inner, env, scope) + Size(m) + (if Copies(e) then Size(m) else 0)
            && Tall(e, env, scope) == 1 + Tall(e.inner, env, scope)
  {
    hide PriceAll, TallAll, OfOne, Walked;
    ReadOne(e.inner, e, env, scope);
    assert Consulted(e, env, scope) == [e.inner];
  }

  lemma {:induction false} OneFinds(e: Expr, env: Inputs, bindings: seq<Value>, depth: nat)
    requires HasOne(e) && depth <= MAX_EXPR_DEPTH
    requires Finds(Eval(e.inner, env, bindings, depth + 1), e.inner, env, Inside(bindings), depth + 1)
    ensures FindsBuilt(Build(e, env, bindings, depth + 1), e, env, Inside(bindings), depth)
  {
    hide Eval, Means, InPlace, Price, Tall, Walked, ReadOf, PartOf, OfOne;
    OneMeans(e, env, Inside(bindings));
    assert Reads(e) || Projects(e);
    var operand := Eval(e.inner, env, bindings, depth + 1);
    assert Build(e, env, bindings, depth + 1) == if Reads(e) then ReadFrom(e, operand) else PartFrom(e, operand);
    if operand.result.Ok? {
      OneComputes(e, operand.result.value.value);
    }
  }

  lemma {:induction false} OneComputes(e: Expr, v: Value)
    requires HasOne(e)
    ensures Reads(e) ==> Agree(ReadOf(e, v), OfOne(e, v))
    ensures Projects(e) ==> Agree(PartOf(e, v), OfOne(e, v))
  {
    if e.IdsOf? && v.VBucket? && v.content.InstanceEdge? {
      assert EdgeIds(v.content) == Ok(VList(Words(v.content.ids)));
    }
  }

  /** A verdict that answers exactly what there is to answer. */
  predicate Agree(r: Outcome<Value>, m: Option<Value>) { if m.Some? then r == Ok(m.value) else r.Err? }

  /** How a term over two operands is built from their verdicts. */
  function TwoFrom(e: Expr, p: Priced<Answer>, q: Priced<Answer>): Priced<Value>
    requires HasTwo(e)
  {
    if Scans(e) then ScanFrom(e, p, q)
    else if Computes(e) then ComputeFrom(e, p, q)
    else if e.Eq? then EqualFrom(p, q)
    else if e.Pack? then PackFrom(p, q)
    else EdgeFrom(p, q)
  }

  /** What such a term walks besides what it builds. */
  function TwoWalk(e: Expr, a: Value, b: Value): nat
    requires HasTwo(e)
  {
    if Scans(e) then Probes(Some(a), Some(b)) + (if e.Lookup? then Size(OfTwo(e, a, b)) else 0)
    else if e.Eq? then Walked(a) + Walked(b)
    else 0
  }

  lemma {:induction false} TwoMeans(e: Expr, env: Inputs, scope: seq<Value>)
    requires HasTwo(e)
    ensures var a, b := Means(Former(e), env, scope), Means(Latter(e), env, scope);
            var m := Means(e, env, scope);
            && m == (if a.Some? && b.Some? then OfTwo(e, a.value, b.value) else None)
            && (m.Some? ==> Price(e, env, scope) == 1 + Price(Former(e), env, scope) + Price(Latter(e), env, scope)
                                                    + Walked(m.value) + TwoWalk(e, a.value, b.value))
            && Tall(e, env, scope) == 1 + Max(Tall(Former(e), env, scope), Tall(Latter(e), env, scope))
  {
    hide PriceAll, TallAll, OfTwo, Walked, Means, Walks, InPlace, TwoWalk;
    ReadMore(Former(e), [Latter(e)], e, env, scope);
    ReadOne(Latter(e), e, env, scope);
    assert Consulted(e, env, scope) == [Former(e)] + [Latter(e)];
    TwoMeaning(e, env, scope);
    if Means(e, env, scope).Some? {
      TwoWalks(e, env, scope);
    }
  }

  lemma {:induction false} TwoMeaning(e: Expr, env: Inputs, scope: seq<Value>)
    requires HasTwo(e)
    ensures var a, b := Means(Former(e), env, scope), Means(Latter(e), env, scope);
            Means(e, env, scope) == if a.Some? && b.Some? then OfTwo(e, a.value, b.value) else None
  {
    hide OfTwo, Former, Latter;
  }

  lemma {:induction false} TwoWalks(e: Expr, env: Inputs, scope: seq<Value>)
    requires HasTwo(e) && Means(e, env, scope).Some?
    ensures Means(Former(e), env, scope).Some? && Means(Latter(e), env, scope).Some?
    ensures Walks(e, env, scope) ==
            Walked(Means(e, env, scope).value)
            + TwoWalk(e, Means(Former(e), env, scope).value, Means(Latter(e), env, scope).value)
  {
    hide OfTwo, Walked, Probes, Means;
    TwoMeaning(e, env, scope);
  }

  /** A verdict on a term over two operands, told by theirs. */
  ghost predicate TwoFound(r: Priced<Value>, e: Expr, p: Priced<Answer>, q: Priced<Answer>)
    requires HasTwo(e)
  {
    && (r.result.Ok? ==> p.result.Ok? && q.result.Ok?)
    && (p.result.Ok? && q.result.Ok? ==>
          var a, b := p.result.value.value, q.result.value.value;
          && Agree(r.result, OfTwo(e, a, b))
          && (r.result.Ok? ==> r.units == p.units + q.units + TwoWalk(e, a, b)))
  }

  lemma {:induction false} TwoCompute(e: Expr, p: Priced<Answer>, q: Priced<Answer>)
    requires HasTwo(e)
    ensures TwoFound(TwoFrom(e, p, q), e, p, q)
  {
    hide TwoFound;
    if Scans(e) {
      ScansCompute(e, p, q);
    } else if e.NfBucket? {
      EdgesComputed(e, p, q);
    } else if e.Add? || e.Lt? {
      SumsCompute(e, p, q);
    } else {
      OthersCompute(e, p, q);
    }
  }

  lemma {:induction false} SumsCompute(e: Expr, p: Priced<Answer>, q: Priced<Answer>)
    requires e.Add? || e.Lt?
    ensures TwoFound(ComputeFrom(e, p, q), e, p, q)
  {}

  lemma {:induction false} OthersCompute(e: Expr, p: Priced<Answer>, q: Priced<Answer>)
    requires e.Eq? || e.Pack?
    ensures TwoFound(if e.Eq? then EqualFrom(p, q) else PackFrom(p, q), e, p, q)
  {
    hide Walked, HoldsBucket;
  }

  lemma {:induction false} EdgesComputed(e: Expr, p: Priced<Answer>, q: Priced<Answer>)
    requires e.NfBucket?
    ensures TwoFound(EdgeFrom(p, q), e, p, q)
  {
    hide IdsAfter, Distinct;
    if q.result.Ok? && q.result.value.value.VList? {
      EdgesCompute(q.result.value.value.elements);
    }
  }

  lemma {:induction false} EdgesCompute(vs: seq<Value>)
    ensures AgreeOnIds(IdsAfter(vs, []),
                       if AllWords(vs) && Distinct(Ids(vs)) && |vs| <= 64 then Some(Ids(vs)) else None)
  {
    if IdsAfter(vs, []).Ok? {
      var ids := IdsAfter(vs, []).value;
      IdSetsAreDistinctWords(vs, ids);
      assert Ids(vs) == ids;
    } else if AllWords(vs) && Distinct(Ids(vs)) && |vs| <= 64 {
      assert vs == Words(Ids(vs));
      IdSetsAreDistinctWords(vs, Ids(vs));
    }
  }

  predicate AgreeOnIds(r: Outcome<seq<Word64>>, m: Option<seq<Word64>>) { if m.Some? then r == Ok(m.value) else r.Err? }

  lemma {:induction false} FindStops(pairs: seq<Value>, key: Value)
    ensures var i, found := Stop(pairs, key), Find(pairs, key);
            && found.units == Looks(if i < |pairs| then i + 1 else i, key)
            && (i == |pairs| ==> found.result == Ok(None))
            && (i < |pairs| && IsPair(pairs[i]) ==> found.result == Ok(Some(pairs[i].fields[1])))
            && (i < |pairs| && !IsPair(pairs[i]) ==> found.result.Err?)
  {
    hide Walked, Looks, Find;
    var i := ScansStopAtTheFirst(pairs, key);
    assert i == Stop(pairs, key);
  }

  lemma {:induction false} ScansCompute(e: Expr, p: Priced<Answer>, q: Priced<Answer>)
    requires Scans(e)
    ensures TwoFound(ScanFrom(e, p, q), e, p, q)
  {
    hide Walked, Looks, Find, Stop;
    if p.result.Ok? && q.result.Ok? && p.result.value.value.VList? {
      var pairs, key := p.result.value.value.elements, q.result.value.value;
      FindStops(pairs, key);
      assert Scanned(p, q) == Find(pairs, key).Plus(q.units).Plus(p.units);
    }
  }

  lemma {:induction false} TwoFinds(e: Expr, env: Inputs, bindings: seq<Value>, depth: nat)
    requires HasTwo(e) && depth <= MAX_EXPR_DEPTH
    requires Finds(Eval(Former(e), env, bindings, depth + 1), Former(e), env, Inside(bindings), depth + 1)
    requires Finds(Eval(Latter(e), env, bindings, depth + 1), Latter(e), env, Inside(bindings), depth + 1)
    ensures FindsBuilt(Build(e, env, bindings, depth + 1), e, env, Inside(bindings), depth)
  {
    hide Eval, Build, Means, InPlace, Price, Tall, Walked, OfTwo, TwoWalk, TwoFrom, Former, Latter, HasTwo;
    TwoMeans(e, env, Inside(bindings));
    TwoBuilds(e, env, bindings, depth + 1);
    TwoCompute(e, Eval(Former(e), env, bindings, depth + 1), Eval(Latter(e), env, bindings, depth + 1));
    OneToll(e);
  }

  lemma {:induction false} OneToll(e: Expr)
    requires HasOne(e) || HasTwo(e)
    ensures Toll(e) == 1
  {}

  lemma {:induction false} TwoBuilds(e: Expr, env: Inputs, bindings: seq<Value>, depth: nat)
    requires HasTwo(e)
    ensures Build(e, env, bindings, depth) ==
            TwoFrom(e, Eval(Former(e), env, bindings, depth), Eval(Latter(e), env, bindings, depth))
  {
    hide Eval;
  }

  lemma {:induction false} DecisionsMean(e: Expr, env: Inputs, scope: seq<Value>)
    requires Decides(e)
    ensures var l, r := Means(e.left, env, scope), TruthOf(Means(e.right, env, scope));
            var settled := l == Some(VBool(e.Or?));
            var m := Means(e, env, scope);
            && m == (if settled then l else if l == Some(VBool(e.And?)) then r else None)
            && Price(e, env, scope) == 1 + Price(e.left, env, scope) + Size(m)
                                       + (if settled then 0 else Price(e.right, env, scope))
            && Tall(e, env, scope) ==
               1 + Max(Tall(e.left, env, scope), if settled then 0 else Tall(e.right, env, scope))
  {
    hide PriceAll, TallAll, Walked, TruthOf, Means, Walks, InPlace;
    DecisionMeaning(e, env, scope);
    ReadOne(e.left, e, env, scope);
    ReadMore(e.left, [e.right], e, env, scope);
    ReadOne(e.right, e, env, scope);
    assert Consulted(e, env, scope) == if Means(e.left, env, scope) == Some(VBool(e.Or?)) then [e.left]
                                  else [e.left] + [e.right];
  }

  lemma {:induction false} DecisionMeaning(e: Expr, env: Inputs, scope: seq<Value>)
    requires Decides(e)
    ensures var l, r := Means(e.left, env, scope), TruthOf(Means(e.right, env, scope));
            Means(e, env, scope) ==
            if l == Some(VBool(e.Or?)) then l else if l == Some(VBool(e.And?)) then r else None
    ensures Walks(e, env, scope) == Size(Means(e, env, scope))
  {
    hide Walked, TruthOf;
  }

  lemma {:induction false} DecidingFinds(e: Expr, env: Inputs, bindings: seq<Value>, depth: nat)
    requires Decides(e) && depth <= MAX_EXPR_DEPTH
    requires Finds(Eval(e.left, env, bindings, depth + 1), e.left, env, Inside(bindings), depth + 1)
    requires Finds(Eval(e.right, env, bindings, depth + 1), e.right, env, Inside(bindings), depth + 1)
    ensures FindsBuilt(Build(e, env, bindings, depth + 1), e, env, Inside(bindings), depth)
  {
    hide Eval, Means, InPlace, Price, Tall, Walked;
    DecisionsMean(e, env, Inside(bindings));
    var p, q := Eval(e.left, env, bindings, depth + 1), Eval(e.right, env, bindings, depth + 1);
    assert Build(e, env, bindings, depth + 1) == ShortFrom(p, q, e.Or?);
    hide Build;
  }

  /** Every element found, in order, and what was held in place kept. */
  lemma {:induction false} AllFound(es: seq<Expr>, top: Expr, env: Inputs, bindings: seq<Value>, depth: nat)
    requires forall i :: 0 <= i < |es| ==> es[i] < top
    ensures var p := EvalAll(es, env, bindings, depth + 1);
            var scope := Inside(bindings);
            && (p.result.Ok? <==> MeansAll(es, env, scope).Some?
                                  && (es != [] ==> depth + 1 + TallAll(es, top, env, scope) <= MAX_EXPR_DEPTH + 1))
            && (p.result.Ok? ==>
                  && p.result.value == MeansAll(es, env, scope).value
                  && p.units == PriceAll(es, top, env, scope) + Keeps(es, env, scope))
    decreases es, 0
  {
    hide Eval, Means, InPlace, Price, Tall, Walked;
    if es != [] {
      EvalFinds(es[0], env, bindings, depth + 1);
      AllFound(es[1..], top, env, bindings, depth);
    }
  }

  /** Every part of the material found, in order, and encoded. */
  lemma {:induction false} MaterialFound(es: seq<Expr>, top: Expr, env: Inputs, bindings: seq<Value>, depth: nat)
    requires forall i :: 0 <= i < |es| ==> es[i] < top
    ensures var p := EvalMaterial(es, env, bindings, depth + 1);
            var scope := Inside(bindings);
            && (p.result.Ok? <==> MeansAll(es, env, scope).Some?
                                  && (es != [] ==> depth + 1 + TallAll(es, top, env, scope) <= MAX_EXPR_DEPTH + 1))
            && (p.result.Ok? ==>
                  && p.result.value == Encodings(env, MeansAll(es, env, scope).value)
                  && p.units == PriceAll(es, top, env, scope) + Sizes(es, env, scope))
    decreases es, 0
  {
    hide Eval, Means, InPlace, Price, Tall, Walked;
    var scope := Inside(bindings);
    if es != [] {
      EvalFinds(es[0], env, bindings, depth + 1);
      MaterialFound(es[1..], top, env, bindings, depth);
      var p, rest := Eval(es[0], env, bindings, depth + 1), EvalMaterial(es[1..], env, bindings, depth + 1);
      assert EvalMaterial(es, env, bindings, depth + 1) == Then(Encoded(env, p), rest);
      var v, vs := Means(es[0], env, scope), MeansAll(es[1..], env, scope);
      assert MeansAll(es, env, scope) == if v.Some? && vs.Some? then Some([v.value] + vs.value) else None;
      assert TallAll(es, top, env, scope) == Max(Tall(es[0], env, scope), TallAll(es[1..], top, env, scope));
      assert PriceAll(es, top, env, scope) == Price(es[0], env, scope) + PriceAll(es[1..], top, env, scope);
      assert Sizes(es, env, scope) == Size(v) + Sizes(es[1..], env, scope);
      EmptyReads(top, env, scope);
      hide EvalMaterial, MeansAll, TallAll, PriceAll, Sizes;
      if v.Some? && vs.Some? {
        assert Encodings(env, [v.value] + vs.value) == [env.seam.encode(v.value)] + Encodings(env, vs.value);
      }
    }
  }

  lemma {:induction false} SequencesMean(e: Expr, env: Inputs, scope: seq<Value>)
    requires Gathers(e)
    ensures var vs := MeansAll(e.elements, env, scope);
            && Means(e, env, scope) == (if vs.None? then None else Some(GatherOf(e, vs.value)))
            && Price(e, env, scope) == 1 + PriceAll(e.elements, e, env, scope) + Keeps(e.elements, env, scope)
                                       + Size(Means(e, env, scope))
            && Tall(e, env, scope) == 1 + TallAll(e.elements, e, env, scope)
  {
    hide PriceAll, TallAll, Walked, MeansAll, Keeps;
    assert Consulted(e, env, scope) == e.elements;
  }

  lemma {:induction false} GatheringFinds(e: Expr, env: Inputs, bindings: seq<Value>, depth: nat)
    requires Gathers(e) && depth <= MAX_EXPR_DEPTH
    ensures FindsBuilt(Build(e, env, bindings, depth + 1), e, env, Inside(bindings), depth)
    decreases e, 0
  {
    hide Eval, EvalAll, Means, MeansAll, InPlace, Price, Tall, PriceAll, TallAll, Keeps, Walked;
    SequencesMean(e, env, Inside(bindings));
    AllFound(e.elements, e, env, bindings, depth);
    EmptyReads(e, env, Inside(bindings));
    assert Build(e, env, bindings, depth + 1) == GatherFrom(e, EvalAll(e.elements, env, bindings, depth + 1));
  }

  lemma {:induction false} EmptyReads(top: Expr, env: Inputs, scope: seq<Value>)
    ensures PriceAll([], top, env, scope) == TallAll([], top, env, scope) == 0
  {}

  lemma {:induction false} SlotFound(slot: SlotRef, point: bool, env: Inputs, bindings: seq<Value>, depth: nat)
    requires depth <= MAX_EXPR_DEPTH
    ensures var p := EvalSlot(slot, point, env, bindings, depth + 1);
            var scope := Inside(bindings);
            && (p.result.Ok? <==>
                  && SlotMeans(slot, point, env, scope).Some?
                  && (slot.Reached? ==> depth + 1 + Tall(slot.named, env, scope) <= MAX_EXPR_DEPTH + 1))
            && (p.result.Ok? ==>
                  && p.result.value == SlotMeans(slot, point, env, scope).value
                  && p.units == if slot.Reached? then Price(slot.named, env, scope) else 0)
    decreases slot, 0
  {
    if slot.Reached? {
      hide Eval, Means, InPlace, Price, Tall, Walked;
      EvalFinds(slot.named, env, bindings, depth + 1);
    }
  }

  lemma {:induction false} DerivationsMean(e: Expr, env: Inputs, scope: seq<Value>)
    requires Derives(e)
    ensures var m, material := Means(e, env, scope), TallAll(e.material, e, env, scope);
            && Price(e, env, scope) == Toll(e) + Size(m) + Sizes(e.material, env, scope)
                                       + PriceAll(e.material, e, env, scope)
                                       + (if e.SelfResource? then 0 else Price(e.owner, env, scope))
                                       + (if e.ChildKey? && e.slot.Reached? then Price(e.slot.named, env, scope) else 0)
            && Tall(e, env, scope) == 1 + Max(if e.SelfResource? then 0 else Tall(e.owner, env, scope),
                 Max(if e.ChildKey? && e.slot.Reached? then Tall(e.slot.named, env, scope) else 0, material))
  {
    hide PriceAll, TallAll, Walked, MeansAll, Sizes, Means, Walks, Children, Toll, Hashes, Consulted;
    DerivationWalks(e, env, scope);
    DerivationReads(e, env, scope);
  }

  lemma {:induction false} DerivationWalks(e: Expr, env: Inputs, scope: seq<Value>)
    requires Derives(e)
    ensures Walks(e, env, scope) == Size(Means(e, env, scope)) + Sizes(e.material, env, scope)
    ensures Toll(e) == 1 + 8 * Hashes(e) && Consulted(e, env, scope) == Children(e)
  {
    hide Walked, Sizes, Means, Children;
  }

  /** What a derivation reads: its owner, its slot where an argument names it, and its material. */
  lemma {:induction false} DerivationReads(e: Expr, env: Inputs, scope: seq<Value>)
    requires Derives(e)
    ensures PriceAll(Children(e), e, env, scope) ==
            PriceAll(e.material, e, env, scope)
            + (if e.SelfResource? then 0 else Price(e.owner, env, scope))
            + (if e.ChildKey? && e.slot.Reached? then Price(e.slot.named, env, scope) else 0)
    ensures TallAll(Children(e), e, env, scope) ==
            Max(if e.SelfResource? then 0 else Tall(e.owner, env, scope),
                Max(if e.ChildKey? && e.slot.Reached? then Tall(e.slot.named, env, scope) else 0,
                    TallAll(e.material, e, env, scope)))
  {
    hide PriceAll, TallAll, Price, Tall;
    if !e.SelfResource? {
      var rest := (if e.ChildKey? then ReachedPart(e.slot) else []) + e.material;
      assert Children(e) == [e.owner] + rest;
      assert forall i :: 0 <= i < |rest| ==> rest[i] == Children(e)[i + 1];
      ReadMore(e.owner, rest, e, env, scope);
      if e.ChildKey? && e.slot.Reached? {
        assert rest == [e.slot.named] + e.material;
        assert rest[0] == e.slot.named;
        ReadMore(e.slot.named, e.material, e, env, scope);
      } else {
        assert rest == e.material;
      }
    }
  }

  lemma {:induction false} DerivingFinds(e: Expr, env: Inputs, bindings: seq<Value>, depth: nat)
    requires Derives(e) && depth <= MAX_EXPR_DEPTH
    ensures FindsBuilt(Build(e, env, bindings, depth + 1), e, env, Inside(bindings), depth)
    decreases e, 0
  {
    hide Eval, EvalMaterial, EvalSlot, Build, MeansAll, Means, InPlace, Price, Tall, PriceAll, TallAll, Sizes, Walked;
    hide DeriveFrom, OfMaterial, SlotMeans;
    var scope := Inside(bindings);
    DerivationsMean(e, env, scope);
    DerivedMeaning(e, env, scope);
    EmptyReads(e, env, scope);
    MaterialFound(e.material, e, env, bindings, depth);
    var material := EvalMaterial(e.material, env, bindings, depth + 1);
    var owner, slot := Priced(Err(RecordMalformed), 0), Priced(Err(RecordMalformed), 0);
    if !e.SelfResource? {
      EvalFinds(e.owner, env, bindings, depth + 1);
      owner := Eval(e.owner, env, bindings, depth + 1);
    }
    if e.ChildKey? {
      SlotFound(e.slot, true, env, bindings, depth);
      slot := EvalSlot(e.slot, true, env, bindings, depth + 1);
    }
    DeriveBuilds(e, env, bindings, depth + 1, owner, slot);
    DeriveComputes(e, env, owner, slot, material, MeansAll(e.material, env, scope));
  }

  /** How a derivation is built from its parts' verdicts. */
  function DeriveFrom(
      e: Expr, env: Inputs, owner: Priced<Answer>, slot: Priced<Word16>, material: Priced<seq<Bytes>>): Priced<Value>
    requires Derives(e)
  {
    if e.SelfResource? then IssuedFrom(env, e.kind, material, e.grants)
    else if e.ChildKey? then ChildFrom(env, owner, slot, material)
    else OrderFrom(env, owner, e.fixed, material)
  }

  lemma {:induction false} DeriveBuilds(
      e: Expr, env: Inputs, bindings: seq<Value>, depth: nat, owner: Priced<Answer>, slot: Priced<Word16>)
    requires Derives(e)
    requires !e.SelfResource? ==> owner == Eval(e.owner, env, bindings, depth)
    requires e.ChildKey? ==> slot == EvalSlot(e.slot, true, env, bindings, depth)
    ensures Build(e, env, bindings, depth) ==
            DeriveFrom(e, env, owner, slot, EvalMaterial(e.material, env, bindings, depth))
  {
    hide Eval, EvalMaterial, EvalSlot;
  }

  function ValueOf(p: Priced<Answer>): Option<Value> {
    if p.result.Ok? then Some(p.result.value.value) else None
  }

  function Found<T>(p: Priced<T>): Option<T> { if p.result.Ok? then Some(p.result.value) else None }

  lemma {:induction false} DeriveComputes(e: Expr, env: Inputs, owner: Priced<Answer>, slot: Priced<Word16>,
                                          material: Priced<seq<Bytes>>, vs: Option<seq<Value>>)
    requires Derives(e)
    requires material.result.Ok? ==> vs.Some? && material.result.value == Encodings(env, vs.value)
    ensures var r := DeriveFrom(e, env, owner, slot, material);
            && (r.result.Ok? <==>
                  && material.result.Ok?
                  && (!e.SelfResource? ==> owner.result.Ok?)
                  && (e.ChildKey? ==> slot.result.Ok?)
                  && OfMaterial(e, env, ValueOf(owner), Found(slot), vs.value).Some?)
            && (r.result.Ok? ==>
                  && Some(r.result.value) == OfMaterial(e, env, ValueOf(owner), Found(slot), vs.value)
                  && r.units == material.units + (if e.SelfResource? then 0 else owner.units)
                                + (if e.ChildKey? then slot.units else 0))
  {}

  lemma {:induction false} DerivedMeaning(e: Expr, env: Inputs, scope: seq<Value>)
    requires Derives(e)
    ensures var vs := MeansAll(e.material, env, scope);
            var owner := if e.SelfResource? then None else Means(e.owner, env, scope);
            var slot := if e.ChildKey? then SlotMeans(e.slot, true, env, scope) else None;
            Means(e, env, scope) == if vs.None? then None else OfMaterial(e, env, owner, slot, vs.value)
    ensures forall o, s, vs ::
              OfMaterial(e, env, o, s, vs).Some? ==> (e.SelfResource? || o.Some?) && (e.ChildKey? ==> s.Some?)
    ensures e.SelfResource? ==> forall o, s, vs :: OfMaterial(e, env, o, s, vs) == OfMaterial(e, env, None, None, vs)
    ensures e.OrderKey? ==> forall o, s, vs :: OfMaterial(e, env, o, s, vs) == OfMaterial(e, env, o, None, vs)
  {
    hide MeansAll, SlotMeans, Encodings;
  }

  lemma {:induction false} EvalFinds(e: Expr, env: Inputs, bindings: seq<Value>, depth: nat)
    ensures Finds(Eval(e, env, bindings, depth), e, env, Inside(bindings), depth)
    decreases e, 2
  {
    var scope := Inside(bindings);
    if depth <= MAX_EXPR_DEPTH {
      if Hands(e) {
        HandingFinds(e, env, bindings, depth);
      } else if e.If? {
        EvalFinds(e.cond, env, bindings, depth + 1);
        EvalFinds(e.then_, env, bindings, depth + 1);
        EvalFinds(e.otherwise, env, bindings, depth + 1);
        SelectingFinds(e, env, bindings, depth);
      } else {
        BuildFinds(e, env, bindings, depth);
        OwningFinds(e, env, bindings, depth);
      }
    }
  }

  lemma {:induction false} BuildFinds(e: Expr, env: Inputs, bindings: seq<Value>, depth: nat)
    requires Builds(e) && depth <= MAX_EXPR_DEPTH
    ensures FindsBuilt(Build(e, env, bindings, depth + 1), e, env, Inside(bindings), depth)
    decreases e, 1
  {
    hide FindsBuilt, Finds, Build, Eval;
    if Draws(e) {
      DrawingFinds(e, env, bindings, depth);
    } else if HasOne(e) {
      EvalFinds(e.inner, env, bindings, depth + 1);
      OneFinds(e, env, bindings, depth);
    } else if HasTwo(e) {
      EvalFinds(Former(e), env, bindings, depth + 1);
      EvalFinds(Latter(e), env, bindings, depth + 1);
      TwoFinds(e, env, bindings, depth);
    } else if Decides(e) {
      EvalFinds(e.left, env, bindings, depth + 1);
      EvalFinds(e.right, env, bindings, depth + 1);
      DecidingFinds(e, env, bindings, depth);
    } else if Gathers(e) {
      GatheringFinds(e, env, bindings, depth);
    } else {
      DerivingFinds(e, env, bindings, depth);
    }
  }

  /** What a term answers, its cost and whose copy it is aside. */
  function Says(e: Expr, env: Inputs, bindings: seq<Value>, depth: nat): Option<Value> {
    var answered := Eval(e, env, bindings, depth).result;
    if answered.Ok? then Some(answered.value.value) else None
  }

  /** What a term answers is what it means, wherever what it reads nests within the bound. */
  lemma {:induction false} AnswersAreMeanings(e: Expr, env: Inputs, bindings: seq<Value>, depth: nat)
    ensures Says(e, env, bindings, depth) ==
            if depth + Tall(e, env, Inside(bindings)) <= MAX_EXPR_DEPTH + 1 then Means(e, env, Inside(bindings))
            else None
  {
    hide Eval, Means, Tall, Price, InPlace;
    EvalFinds(e, env, bindings, depth);
  }
}
