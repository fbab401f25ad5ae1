/** An expression that reads no call input answers alike for every caller. */
module Taint {
  import opened Vocabulary
  import opened Syntax
  import opened Rules
  import opened Evaluation
  import opened Targets

  /** Whether evaluating this reads anything the caller supplies. */
  predicate ReadsCallInputs(e: Expr)
    decreases e
  {
    IsInputLeaf(e) || exists i :: 0 <= i < |Children(e)| && ReadsCallInputs(Children(e)[i])
  }

  predicate AnyReadsCallInputs(es: seq<Expr>) {
    exists i :: 0 <= i < |es| && ReadsCallInputs(es[i])
  }

  predicate SlotReadsCallInputs(slot: SlotRef) { slot.Reached? && ReadsCallInputs(slot.named) }

  /** The same call in everything but what its caller supplied. */
  ghost predicate SameTarget(env: Inputs, other: Inputs) { other == env.(args := other.args) }

  lemma {:induction false} ChildrenAreUntainted(e: Expr)
    requires !ReadsCallInputs(e)
    ensures !AnyReadsCallInputs(Children(e))
  {}

  /** Value, refusal and cost are all a function of what the caller did not choose. */
  lemma {:induction false} UntaintedIsCallerBlind(
    e: Expr, env: Inputs, bindings: seq<Value>, other: Inputs, others: seq<Value>, depth: nat)
    requires !ReadsCallInputs(e) && SameTarget(env, other)
    ensures Eval(e, env, bindings, depth) == Eval(e, other, others, depth)
    decreases e, 2
  {
    if depth <= MAX_EXPR_DEPTH {
      if e.If? {
        forall i | 0 <= i < 3 ensures !ReadsCallInputs(Children(e)[i]) {}
        UntaintedIsCallerBlind(Children(e)[0], env, bindings, other, others, depth + 1);
        UntaintedIsCallerBlind(Children(e)[1], env, bindings, other, others, depth + 1);
        UntaintedIsCallerBlind(Children(e)[2], env, bindings, other, others, depth + 1);
      } else if Builds(e) {
        BuildIsCallerBlind(e, env, bindings, other, others, depth + 1);
      }
    }
  }

  predicate Derives(e: Expr) { e.SelfResource? || e.ChildKey? || e.OrderKey? }

  lemma {:induction false} BuildIsCallerBlind(
    e: Expr, env: Inputs, bindings: seq<Value>, other: Inputs, others: seq<Value>, depth: nat)
    requires Builds(e) && !ReadsCallInputs(e) && SameTarget(env, other)
    ensures Build(e, env, bindings, depth) == Build(e, other, others, depth)
    decreases e, 1
  {
    hide Eval, EvalAll, EvalMaterial, EvalSlot;
    if Derives(e) {
      DeriveIsCallerBlind(e, env, bindings, other, others, depth);
    } else if e.ListOf? || e.TupleOf? {
      assert Children(e) == e.elements;
      AllIsCallerBlind(e.elements, env, bindings, other, others, depth);
    } else {
      if |Children(e)| > 0 {
        assert !ReadsCallInputs(Children(e)[0]);
        UntaintedIsCallerBlind(Children(e)[0], env, bindings, other, others, depth);
      }
      if |Children(e)| > 1 {
        assert !ReadsCallInputs(Children(e)[1]);
        UntaintedIsCallerBlind(Children(e)[1], env, bindings, other, others, depth);
      }
    }
  }

  lemma {:induction false} DeriveIsCallerBlind(
    e: Expr, env: Inputs, bindings: seq<Value>, other: Inputs, others: seq<Value>, depth: nat)
    requires Derives(e) && !ReadsCallInputs(e) && SameTarget(env, other)
    ensures Build(e, env, bindings, depth) == Build(e, other, others, depth)
    decreases e, 0
  {
    hide Eval, EvalMaterial, EvalSlot, ReadsCallInputs;
    ChildrenAreUntainted(e);
    forall i | 0 <= i < |e.material| ensures !ReadsCallInputs(e.material[i]) {
      assert e.material[i] == Children(e)[|Children(e)| - |e.material| + i];
    }
    MaterialIsCallerBlind(e.material, env, bindings, other, others, depth);
    if !e.SelfResource? {
      assert !ReadsCallInputs(Children(e)[0]);
      UntaintedIsCallerBlind(e.owner, env, bindings, other, others, depth);
    }
    if e.ChildKey? {
      assert e.slot.Reached? ==> !ReadsCallInputs(Children(e)[1]);
      SlotIsCallerBlind(e.slot, true, env, bindings, other, others, depth);
    }
  }

  lemma {:induction false} SlotIsCallerBlind(
    slot: SlotRef, point: bool, env: Inputs, bindings: seq<Value>, other: Inputs, others: seq<Value>, depth: nat)
    requires !SlotReadsCallInputs(slot) && SameTarget(env, other)
    ensures EvalSlot(slot, point, env, bindings, depth) == EvalSlot(slot, point, other, others, depth)
    decreases slot, 0
  {
    if slot.Reached? {
      UntaintedIsCallerBlind(slot.named, env, bindings, other, others, depth);
    }
  }

  lemma {:induction false} MaterialIsCallerBlind(
    material: seq<Expr>, env: Inputs, bindings: seq<Value>, other: Inputs, others: seq<Value>, depth: nat)
    requires !AnyReadsCallInputs(material) && SameTarget(env, other)
    ensures EvalMaterial(material, env, bindings, depth) == EvalMaterial(material, other, others, depth)
    decreases material, 0
  {
    if material != [] {
      UntaintedIsCallerBlind(material[0], env, bindings, other, others, depth);
      MaterialIsCallerBlind(material[1..], env, bindings, other, others, depth);
    }
  }

  lemma {:induction false} AllIsCallerBlind(
    elements: seq<Expr>, env: Inputs, bindings: seq<Value>, other: Inputs, others: seq<Value>, depth: nat)
    requires !AnyReadsCallInputs(elements) && SameTarget(env, other)
    ensures EvalAll(elements, env, bindings, depth) == EvalAll(elements, other, others, depth)
    decreases elements, 0
  {
    if elements != [] {
      UntaintedIsCallerBlind(elements[0], env, bindings, other, others, depth);
      AllIsCallerBlind(elements[1..], env, bindings, other, others, depth);
    }
  }

  // ------------------------------------------------------------------ targets and rules

  predicate TargetReadsCallInputs(target: TargetExpr) { AnyReadsCallInputs(TargetParts(target)) }

  /** A target no caller reaches into resolves alike for every caller. */
  lemma {:induction false} TargetIsCallerBlind(
    target: TargetExpr, env: Inputs, bindings: seq<Value>, other: Inputs, others: seq<Value>)
    requires !TargetReadsCallInputs(target) && SameTarget(env, other)
    ensures EvalTarget(target, env, bindings) == EvalTarget(target, other, others)
    ensures WidthOf(target, env) == WidthOf(target, other)
  {
    hide Eval, EvalSlot, EvalMaterial, ReadsCallInputs;
    var parts := TargetParts(target);
    forall i | 0 <= i < |parts|
      ensures !ReadsCallInputs(parts[i]) && Eval(parts[i], env, bindings, 0) == Eval(parts[i], other, others, 0)
    {
      UntaintedIsCallerBlind(parts[i], env, bindings, other, others, 0);
    }
    if target.PointAt? {
      assert parts[0] == target.key;
    } else {
      assert parts[0] == target.owner;
      CollectionIsCallerBlind(target, env, bindings, other, others);
      var last := |parts| - 1;
      if target.EntryAt? {
        assert parts[last] == target.order;
      } else {
        assert parts[last] == target.cap && parts[last - 1] == target.hi && parts[last - 2] == target.lo;
      }
    }
  }

  lemma {:induction false} CollectionIsCallerBlind(
    target: TargetExpr, env: Inputs, bindings: seq<Value>, other: Inputs, others: seq<Value>)
    requires !target.PointAt? && !TargetReadsCallInputs(target) && SameTarget(env, other)
    ensures forall owner :: EvalCollection(owner, target.collection, target.material, env, bindings)
                            == EvalCollection(owner, target.collection, target.material, other, others)
  {
    hide Eval, EvalSlot, EvalMaterial, ReadsCallInputs;
    var parts, reached := TargetParts(target), ReachedPart(target.collection);
    forall i | 0 <= i < |target.material| ensures !ReadsCallInputs(target.material[i]) {
      assert parts[1 + |reached| + i] == target.material[i];
    }
    if target.collection.Reached? {
      assert parts[1] == target.collection.named;
    }
    SlotIsCallerBlind(target.collection, false, env, bindings, other, others, 0);
    MaterialIsCallerBlind(target.material, env, bindings, other, others, 0);
  }

  predicate LeafReadsCallInputs(leaf: RuleLeaf) {
    match leaf
    case NamedClaim(claim) => ReadsCallInputs(claim)
    case StoredAt(cell) => ReadsCallInputs(cell)
    case PresenceOf(target, _) => TargetReadsCallInputs(target)
  }

  /** Whether some leaf that reads evidence reads what the caller supplies. */
  predicate NamesCallerAuthority(rule: RuleExpr) {
    exists i :: 0 <= i < |Leaves(rule)| && !Leaves(rule)[i].PresenceOf? && LeafReadsCallInputs(Leaves(rule)[i])
  }

  lemma {:induction false} LeafIsCallerBlind(
      leaf: RuleLeaf, env: Inputs, bindings: seq<Value>, other: Inputs, others: seq<Value>)
    requires !LeafReadsCallInputs(leaf) && SameTarget(env, other)
    ensures EvalLeaf(leaf, env, bindings) == EvalLeaf(leaf, other, others)
  {
    hide Eval, EvalTarget, ReadsCallInputs;
    match leaf
    case NamedClaim(claim) => UntaintedIsCallerBlind(claim, env, bindings, other, others, 0);
    case StoredAt(cell) => UntaintedIsCallerBlind(cell, env, bindings, other, others, 0);
    case PresenceOf(target, _) => TargetIsCallerBlind(target, env, bindings, other, others);
  }

  /** A rule naming no caller authority asks every caller for the same claims and the same
      stored rules: wherever two calls' evaluations of it both succeed, they differ at most
      in the cells its presence leaves read. */
  lemma {:induction false} AuthorityIsCallerBlind(
    rule: RuleExpr, env: Inputs, bindings: seq<Value>, other: Inputs, others: seq<Value>, i: nat)
    requires !NamesCallerAuthority(rule) && SameTarget(env, other)
    requires EvalCondition(rule, env, bindings).result.Ok? && EvalCondition(rule, other, others).result.Ok?
    requires i < |Leaves(rule)| && !Leaves(rule)[i].PresenceOf?
    ensures var mine, theirs := Leaves(EvalCondition(rule, env, bindings).result.value),
            Leaves(EvalCondition(rule, other, others).result.value);
            |mine| == |theirs| == |Leaves(rule)| && mine[i] == theirs[i]
  {
    hide EvalLeaf, LeafReadsCallInputs;
    JudgedLeavesAlign(rule, leaf => EvalLeaf(leaf, env, bindings));
    JudgedLeavesAlign(rule, leaf => EvalLeaf(leaf, other, others));
    LeafIsCallerBlind(Leaves(rule)[i], env, bindings, other, others);
  }

  // --------------------------------------------------------------- no more than inputs

  /** `part` is read somewhere in `e`, at any depth. */
  predicate PartOf(part: Expr, e: Expr)
    decreases e
  {
    part == e || exists i :: 0 <= i < |Children(e)| && PartOf(part, Children(e)[i])
  }

  ghost predicate HoldsInput(e: Expr) { exists part :: PartOf(part, e) && (part.Arg? || part.Binding?) }

  /** An expression is taken to read the call exactly where an argument or a loop's element is
      named somewhere in it, so a configuration, a record or a draw never taints. */
  lemma {:induction false} TaintIsAnInputWithin(e: Expr)
    ensures ReadsCallInputs(e) <==> HoldsInput(e)
  {
    hide ReadsCallInputs, PartOf;
    if ReadsCallInputs(e) {
      var part := InputWithin(e);
    }
    if part :| PartOf(part, e) && (part.Arg? || part.Binding?) {
      InputTaints(part, e);
    }
  }

  lemma {:induction false} InputWithin(e: Expr) returns (part: Expr)
    requires ReadsCallInputs(e)
    ensures PartOf(part, e) && (part.Arg? || part.Binding?)
    decreases e
  {
    part := e;
    if !IsInputLeaf(e) {
      var i :| 0 <= i < |Children(e)| && ReadsCallInputs(Children(e)[i]);
      part := InputWithin(Children(e)[i]);
    }
  }

  lemma {:induction false} InputTaints(part: Expr, e: Expr)
    requires PartOf(part, e) && (part.Arg? || part.Binding?)
    ensures ReadsCallInputs(e)
    decreases e
  {
    if part != e {
      var i :| 0 <= i < |Children(e)| && PartOf(part, Children(e)[i]);
      InputTaints(part, Children(e)[i]);
    }
  }

  /** And what taints is a caller's to choose: some other call to the same target is answered otherwise. */
  lemma {:induction false} InputsTellCallersApart(e: Expr, env: Inputs, bindings: seq<Value>, depth: nat)
    returns (other: Inputs, others: seq<Value>)
    requires (e.Arg? || e.Binding?) && depth <= MAX_EXPR_DEPTH
    ensures SameTarget(env, other) && Eval(e, env, bindings, depth).result != Eval(e, other, others, depth).result
  {
    other, others := env, bindings;
    var v := VBool(HandedOut(e, env, bindings) != Ok(VBool(true)));
    if e.Arg? {
      other := env.(args := seq(e.index + 1, _ => v));
      assert HandedOut(e, other, others) == Ok(v);
    } else {
      others := seq(e.index + 1, _ => v);
      assert HandedOut(e, other, others) == Ok(v);
    }
    assert Eval(e, env, bindings, depth).result == Handed(HandedOut(e, env, bindings)).result;
    assert Eval(e, other, others, depth).result == Handed(HandedOut(e, other, others)).result;
  }

  /** A rule names the caller's authority exactly where a claim or a stored rule's cell does. */
  lemma {:induction false} AuthorityIsNamedByInputs(rule: RuleExpr)
    ensures NamesCallerAuthority(rule) <==>
            exists leaf <- Leaves(rule) :: (leaf.NamedClaim? && HoldsInput(leaf.claim))
                                           || (leaf.StoredAt? && HoldsInput(leaf.cell))
  {
    hide HoldsInput, ReadsCallInputs;
    forall leaf <- Leaves(rule)
      ensures leaf.NamedClaim? ==> (ReadsCallInputs(leaf.claim) <==> HoldsInput(leaf.claim))
      ensures leaf.StoredAt? ==> (ReadsCallInputs(leaf.cell) <==> HoldsInput(leaf.cell))
    {
      if leaf.NamedClaim? {
        TaintIsAnInputWithin(leaf.claim);
      } else if leaf.StoredAt? {
        TaintIsAnInputWithin(leaf.cell);
      }
    }
    if NamesCallerAuthority(rule) {
      var i :| 0 <= i < |Leaves(rule)| && !Leaves(rule)[i].PresenceOf? && LeafReadsCallInputs(Leaves(rule)[i]);
      assert Leaves(rule)[i] in Leaves(rule);
    }
  }
}
