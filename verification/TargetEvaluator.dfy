/** The evaluators of a clause's parts, charging the shared meters as they go. */
module TargetEvaluator {
  import opened Vocabulary
  import opened Syntax
  import opened Evaluation
  import opened Clauses
  import opened Metering
  import opened Evaluator
  import opened Targets
  import opened Readings

  method ReadKey(e: Expr, env: Inputs, bindings: seq<Value>, budget: Budget) returns (r: Outcome<SubstateKey>)
    modifies budget`spent, budget`evaluated, budget.envelope`spent
    ensures Settles(old(budget.State()), Keyed(Eval(e, env, bindings, 0)), r, budget.State())
  {
    var held :- EvalExpr(e, env, bindings, 0, budget);
    r := AsKey(held.value);
  }

  method ReadWide(e: Expr, env: Inputs, bindings: seq<Value>, budget: Budget) returns (r: Outcome<Word128>)
    modifies budget`spent, budget`evaluated, budget.envelope`spent
    ensures Settles(old(budget.State()), Wide(Eval(e, env, bindings, 0)), r, budget.State())
  {
    var held :- EvalExpr(e, env, bindings, 0, budget);
    r := AsU128(held.value);
  }

  method ReadCap(e: Expr, env: Inputs, bindings: seq<Value>, budget: Budget) returns (r: Outcome<Word32>)
    modifies budget`spent, budget`evaluated, budget.envelope`spent
    ensures Settles(old(budget.State()), Cap(Eval(e, env, bindings, 0)), r, budget.State())
  {
    var held :- EvalExpr(e, env, bindings, 0, budget);
    r := AsCap(held.value);
  }

  method ReadHeld(e: Expr, env: Inputs, bindings: seq<Value>, budget: Budget) returns (r: Outcome<ResourceAddr>)
    modifies budget`spent, budget`evaluated, budget.envelope`spent
    ensures Settles(old(budget.State()), HeldFrom(Eval(e, env, bindings, 0)), r, budget.State())
  {
    var held :- EvalExpr(e, env, bindings, 0, budget);
    r := AsHeldResource(held.value);
  }

  method ReadCollection(
      owner: Address, slot: SlotRef, material: seq<Expr>, env: Inputs, bindings: seq<Value>, budget: Budget)
    returns (r: Outcome<Bytes>)
    modifies budget`spent, budget`evaluated, budget.envelope`spent
    ensures Settles(old(budget.State()), EvalCollection(owner, slot, material, env, bindings), r, budget.State())
  {
    hide EvalSlot, EvalMaterial;
    var under :- SlotUnder(slot, false, env, bindings, 0, budget);
    r := CollectUnder(owner, under, material, env, bindings, budget);
  }

  method CollectUnder(
      owner: Address, under: Word16, material: seq<Expr>, env: Inputs, bindings: seq<Value>, budget: Budget)
    returns (r: Outcome<Bytes>)
    modifies budget`spent, budget`evaluated, budget.envelope`spent
    ensures Settles(old(budget.State()),
                    CollectionFrom(env, owner, Priced(Ok(under), 0), EvalMaterial(material, env, bindings, 0)),
                    r, budget.State())
  {
    var parts :- EncodeMaterial(material, env, bindings, 0, budget);
    var _ :- budget.Spend(WORK_PER_DERIVATION);
    r := Ok(env.seam.CollectionOf(owner, under, parts));
  }

  method ReadTarget(target: TargetExpr, env: Inputs, bindings: seq<Value>, budget: Budget)
    returns (r: Outcome<EffectTarget>)
    modifies budget`spent, budget`evaluated, budget.envelope`spent
    ensures Settles(old(budget.State()), EvalTarget(target, env, bindings), r, budget.State())
  {
    hide Eval, EvalCollection;
    match target
    case PointAt(key) =>
      var at :- ReadKey(key, env, bindings, budget);
      r := Ok(Point(at));
    case EntryAt(owner, _, _, _) =>
      var at :- EvalOwner(owner, env, bindings, 0, budget);
      r := ReadEntry(target, at, env, bindings, budget);
    case RangeOver(owner, _, _, _, _, _) =>
      var at :- EvalOwner(owner, env, bindings, 0, budget);
      r := ReadRange(target, at, env, bindings, budget);
  }

  method ReadEntry(target: TargetExpr, owner: Address, env: Inputs, bindings: seq<Value>, budget: Budget)
    returns (r: Outcome<EffectTarget>)
    requires target.EntryAt?
    modifies budget`spent, budget`evaluated, budget.envelope`spent
    ensures Settles(old(budget.State()),
                    EntryIn(owner, EvalCollection(owner, target.collection, target.material, env, bindings),
                            Eval(target.order, env, bindings, 0)),
                    r, budget.State())
  {
    hide Eval, EvalCollection;
    var id :- ReadCollection(owner, target.collection, target.material, env, bindings, budget);
    var order :- ReadWide(target.order, env, bindings, budget);
    r := Ok(EffectTarget.Entry(owner, id, order));
  }

  method ReadRange(target: TargetExpr, owner: Address, env: Inputs, bindings: seq<Value>, budget: Budget)
    returns (r: Outcome<EffectTarget>)
    requires target.RangeOver?
    modifies budget`spent, budget`evaluated, budget.envelope`spent
    ensures Settles(old(budget.State()),
                    RangeIn(owner, EvalCollection(owner, target.collection, target.material, env, bindings),
                            Interval(Eval(target.lo, env, bindings, 0), Eval(target.hi, env, bindings, 0)),
                                Eval(target.cap, env, bindings, 0)),
                    r, budget.State())
  {
    hide Eval, EvalCollection;
    var id :- ReadCollection(owner, target.collection, target.material, env, bindings, budget);
    r := ReadCapped(target, owner, id, env, bindings, budget);
  }

  method ReadCapped(target: TargetExpr, owner: Address, id: Bytes, env: Inputs, bindings: seq<Value>, budget: Budget)
    returns (r: Outcome<EffectTarget>)
    requires target.RangeOver?
    modifies budget`spent, budget`evaluated, budget.envelope`spent
    ensures Settles(old(budget.State()),
                    Capped(owner, id, Interval(Eval(target.lo, env, bindings, 0), Eval(target.hi, env, bindings, 0)),
                           Eval(target.cap, env, bindings, 0)),
                    r, budget.State())
  {
    hide Eval;
    var ends :- ReadInterval(target, env, bindings, budget);
    var cap :- ReadCap(target.cap, env, bindings, budget);
    r := Ok(EffectTarget.Range(owner, id, ends.0, ends.1, cap));
  }

  method ReadInterval(target: TargetExpr, env: Inputs, bindings: seq<Value>, budget: Budget)
    returns (r: Outcome<(Word128, Word128)>)
    requires target.RangeOver?
    modifies budget`spent, budget`evaluated, budget.envelope`spent
    ensures Settles(old(budget.State()),
                    Interval(Eval(target.lo, env, bindings, 0), Eval(target.hi, env, bindings, 0)),
                    r, budget.State())
  {
    var lo :- ReadWide(target.lo, env, bindings, budget);
    var hi :- ReadWide(target.hi, env, bindings, budget);
    if lo > hi {
      return Err(InvalidRange);
    }
    r := Ok((lo, hi));
  }

  method ReadMode(mode: ModeExpr, env: Inputs, bindings: seq<Value>, budget: Budget) returns (r: Outcome<Mode>)
    modifies budget`spent, budget`evaluated, budget.envelope`spent
    ensures Settles(old(budget.State()), EvalMode(mode, env, bindings), r, budget.State())
    ensures r.Ok? ==> TellsMode(mode, env, bindings, r.value)
  {
    hide Eval, TellsMode;
    match mode {
      case ReadMode => r := Ok(Read);
      case DeltaMode(moves) => r := Ok(Delta(moves));
      case WriteMode(moves) => r := Ok(Write(moves));
      case ReserveMode(amount) =>
        var most :- ReadWide(amount, env, bindings, budget);
        r := Ok(Reserve(most));
    }
    ModesTell(mode, env, bindings, r.value);
  }

  method ReadPlaced(target: TargetExpr, mode: ModeExpr, env: Inputs, bindings: seq<Value>, budget: Budget)
    returns (r: Outcome<Placed>)
    modifies budget`spent, budget`evaluated, budget.envelope`spent
    ensures Settles(old(budget.State()), EvalPlaced(target, mode, env, bindings), r, budget.State())
  {
    hide EvalTarget, EvalMode;
    var at :- ReadTarget(target, env, bindings, budget);
    var how :- ReadMode(mode, env, bindings, budget);
    r := Ok(Placed(at, WidthOf(target, env), how));
  }

  method ReadHolds(denomination: Option<Expr>, env: Inputs, bindings: seq<Value>, budget: Budget)
    returns (r: Outcome<Option<ResourceAddr>>)
    modifies budget`spent, budget`evaluated, budget.envelope`spent
    ensures Settles(old(budget.State()), EvalHolds(denomination, env, bindings), r, budget.State())
  {
    if denomination.None? {
      return Ok(None);
    }
    var resource :- ReadHeld(denomination.value, env, bindings, budget);
    r := Ok(Some(resource));
  }

  method ReadReach(reach: Option<Behaviour>, target: TargetExpr, env: Inputs, bindings: seq<Value>, budget: Budget)
    returns (r: Outcome<Option<Reach>>)
    modifies budget`spent, budget`evaluated, budget.envelope`spent
    ensures Settles(old(budget.State()), EvalReach(reach, target, env, bindings), r, budget.State())
  {
    if reach.None? {
      return Ok(None);
    }
    var keyed := KeyingResource(target);
    if keyed.None? {
      return Err(UnkeyedReach);
    }
    var resource :- ReadHeld(keyed.value, env, bindings, budget);
    r := Ok(Some(Reach(reach.value, resource)));
  }

  method ReadBorne(
      target: TargetExpr, denomination: Option<Expr>, reach: Option<Behaviour>, env: Inputs, bindings: seq<Value>,
      budget: Budget)
    returns (r: Outcome<Borne>)
    modifies budget`spent, budget`evaluated, budget.envelope`spent
    ensures Settles(old(budget.State()), EvalBorne(target, denomination, reach, env, bindings), r, budget.State())
  {
    hide EvalHolds, EvalReach;
    var holds :- ReadHolds(denomination, env, bindings, budget);
    var reached :- ReadReach(reach, target, env, bindings, budget);
    r := Ok(Borne(holds, reached));
  }

  method ReadClaim(e: Expr, env: Inputs, bindings: seq<Value>, budget: Budget) returns (r: Outcome<JudgedLeaf>)
    modifies budget`spent, budget`evaluated, budget.envelope`spent
    ensures Settles(old(budget.State()), ClaimFrom(Eval(e, env, bindings, 0)), r, budget.State())
  {
    hide Eval;
    var held :- EvalExpr(e, env, bindings, 0, budget);
    var claim :- AsClaim(held.value);
    r := Ok(JudgedClaim(claim));
  }

  method ReadLeaf(leaf: RuleLeaf, env: Inputs, bindings: seq<Value>, budget: Budget) returns (r: Outcome<JudgedLeaf>)
    modifies budget`spent, budget`evaluated, budget.envelope`spent
    ensures Settles(old(budget.State()), EvalLeaf(leaf, env, bindings), r, budget.State())
  {
    hide Eval, EvalTarget;
    match leaf
    case NamedClaim(claim) =>
      r := ReadClaim(claim, env, bindings, budget);
    case StoredAt(cell) =>
      var key :- ReadKey(cell, env, bindings, budget);
      r := Ok(JudgedStored(key));
    case PresenceOf(target, wanted) =>
      var at :- ReadTarget(target, env, bindings, budget);
      r := Ok(JudgedPresence(at, wanted));
  }

  /** Leaf for leaf, branch by branch. */
  method ReadRule(
      rule: RuleExpr, ghost price: RuleLeaf -> Priced<JudgedLeaf>, env: Inputs, bindings: seq<Value>, budget: Budget)
    returns (r: Outcome<Rule<JudgedLeaf>>)
    requires forall leaf :: price(leaf) == EvalLeaf(leaf, env, bindings)
    modifies budget`spent, budget`evaluated, budget.envelope`spent
    ensures Settles(old(budget.State()), PriceLeaves(rule, price), r, budget.State())
    decreases rule, 0
  {
    match rule
    case Require(leaf) =>
      var judged :- ReadLeaf(leaf, env, bindings, budget);
      r := Ok(Require(judged));
    case CountOf(count, rules) =>
      var branches :- ReadRules(rules, price, env, bindings, budget);
      r := Ok(CountOf(count, branches));
  }

  method ReadRules(
      rules: seq<RuleExpr>, ghost price: RuleLeaf -> Priced<JudgedLeaf>, env: Inputs, bindings: seq<Value>,
      budget: Budget)
    returns (r: Outcome<seq<Rule<JudgedLeaf>>>)
    requires forall leaf :: price(leaf) == EvalLeaf(leaf, env, bindings)
    modifies budget`spent, budget`evaluated, budget.envelope`spent
    ensures Settles(old(budget.State()), PriceLeavesAll(rules, price), r, budget.State())
    decreases rules, 0
  {
    hide PriceLeaves, EvalLeaf;
    var gathered: seq<Rule<JudgedLeaf>> := [];
    ghost var start := budget.State();
    ghost var done: nat := 0;
    ghost var whole := PriceLeavesAll(rules, price);
    assert rules[0..] == rules;
    GatheredNone(whole);
    for i := 0 to |rules|
      invariant Settles(start, Priced(Ok(()), done), Ok(()), budget.State())
      invariant whole == Gathered(gathered, done, PriceLeavesAll(rules[i..], price))
    {
      ghost var first := PriceLeaves(rules[i], price);
      assert rules[i..][0] == rules[i] && rules[i..][1..] == rules[i + 1..];
      GatheredOne(gathered, done, first, PriceLeavesAll(rules[i + 1..], price));
      var part :- ReadRule(rules[i], price, env, bindings, budget);
      done := done + first.units;
      gathered := gathered + [part];
    }
    GatheredAll(gathered, done);
    r := Ok(gathered);
  }

  method ReadCondition(rule: RuleExpr, env: Inputs, bindings: seq<Value>, budget: Budget)
    returns (r: Outcome<Rule<JudgedLeaf>>)
    modifies budget`spent, budget`evaluated, budget.envelope`spent
    ensures Settles(old(budget.State()), EvalCondition(rule, env, bindings), r, budget.State())
  {
    r := ReadRule(rule, leaf => EvalLeaf(leaf, env, bindings), env, bindings, budget);
  }

  method ReadProven(e: Expr, env: Inputs, bindings: seq<Value>, budget: Budget) returns (r: Outcome<Claim>)
    modifies budget`spent, budget`evaluated, budget.envelope`spent
    ensures Settles(old(budget.State()), ProvenFrom(e, Eval(e, env, bindings, 0)), r, budget.State())
  {
    var held :- EvalExpr(e, env, bindings, 0, budget);
    r := AsProven(e, held.value);
  }

  method ReadItems(list: Expr, env: Inputs, bindings: seq<Value>, budget: Budget) returns (r: Outcome<seq<Value>>)
    modifies budget`spent, budget`evaluated, budget.envelope`spent
    ensures Settles(old(budget.State()), ItemsFrom(Eval(list, env, bindings, 0)), r, budget.State())
  {
    var kept :- KeepOne(list, env, bindings, 0, budget);
    r := AsItems(kept);
  }
}
