/** What the expressions inside a clause evaluate to: targets, modes, rules, claims and collections. */
module Targets {
  import opened Vocabulary
  import opened Syntax
  import opened Rules
  import opened Evaluation
  import opened EffectSets
  import opened Clauses

  // ------------------------------------------------------------ operands by kind

  function Keyed(p: Priced<Answer>): Priced<SubstateKey> {
    var (held, spent) :- p;
    Priced(AsKey(held.value), spent)
  }

  function Wide(p: Priced<Answer>): Priced<Word128> {
    var (held, spent) :- p;
    Priced(AsU128(held.value), spent)
  }

  function Cap(p: Priced<Answer>): Priced<Word32> {
    var (held, spent) :- p;
    Priced(AsCap(held.value), spent)
  }

  /** The resource a value cell's clause declares the cell holds. */
  function AsHeldResource(v: Value): Outcome<ResourceAddr> {
    if v.VAddress? then AsResource(v.address) else Mismatch(ResourceKindName, v)
  }

  function AsClaim(v: Value): Outcome<Claim> {
    var claim := ClaimOf(v);
    if claim.Some? then Ok(claim.value) else Mismatch(ClaimKind, v)
  }

  /** A claim that is nobody's badge is somebody acting as themselves, and the only one a
      declaration may prove is its own target's, spelled as itself. */
  function AsProven(e: Expr, v: Value): Outcome<Claim> {
    var claim :- AsClaim(v);
    if claim.Badge().None? && !e.SelfAddr? then Err(TypeMismatch(BadgeKind, IdentityKind)) else Ok(claim)
  }

  function AsItems(v: Value): Outcome<seq<Value>> {
    var items :- AsList(v);
    if |items| > MAX_FOREACH_ELEMENTS then Err(ForEachTooLong(|items|)) else Ok(items)
  }

  // ------------------------------------------------------------------- targets

  function KeyPoint(key: Priced<Answer>): Priced<EffectTarget> {
    var (at, spent) :- Keyed(key);
    Priced(Ok(Point(at)), spent)
  }

  /** A collection's identity, the hash paid for once its material is. */
  function CollectionFrom(env: Inputs, owner: Address, slot: Priced<Word16>, material: Priced<seq<Bytes>>)
    : Priced<Bytes>
  {
    var (under, spent) :- slot;
    var (parts, spent) :- material.Plus(spent);
    Priced(Ok(env.seam.CollectionOf(owner, under, parts)), spent + WORK_PER_DERIVATION)
  }

  function EntryIn(owner: Address, collection: Priced<Bytes>, order: Priced<Answer>): Priced<EffectTarget> {
    var (id, spent) :- collection;
    var (position, spent) :- Wide(order).Plus(spent);
    Priced(Ok(EffectTarget.Entry(owner, id, position)), spent)
  }

  /** An inverted interval is refused before its cap is read. */
  function Interval(lo: Priced<Answer>, hi: Priced<Answer>): Priced<(Word128, Word128)> {
    var (from, spent) :- Wide(lo);
    var (to, spent) :- Wide(hi).Plus(spent);
    Priced(if from > to then Err(InvalidRange) else Ok((from, to)), spent)
  }

  function Capped(owner: Address, id: Bytes, interval: Priced<(Word128, Word128)>, cap: Priced<Answer>)
    : Priced<EffectTarget>
  {
    var (ends, spent) :- interval;
    var (most, spent) :- Cap(cap).Plus(spent);
    Priced(Ok(EffectTarget.Range(owner, id, ends.0, ends.1, most)), spent)
  }

  function RangeIn(owner: Address, collection: Priced<Bytes>, interval: Priced<(Word128, Word128)>, cap: Priced<Answer>)
    : Priced<EffectTarget>
  {
    var (id, spent) :- collection;
    Capped(owner, id, interval, cap).Plus(spent)
  }

  function EvalCollection(owner: Address, slot: SlotRef, material: seq<Expr>, env: Inputs, bindings: seq<Value>)
    : Priced<Bytes>
  {
    CollectionFrom(env, owner, EvalSlot(slot, false, env, bindings, 0), EvalMaterial(material, env, bindings, 0))
  }

  function EvalTarget(target: TargetExpr, env: Inputs, bindings: seq<Value>): Priced<EffectTarget> {
    match target
    case PointAt(key) => KeyPoint(Eval(key, env, bindings, 0))
    case EntryAt(owner, collection, material, order) =>
      var (at, spent) :- Owner(Eval(owner, env, bindings, 0));
      EntryIn(at, EvalCollection(at, collection, material, env, bindings), Eval(order, env, bindings, 0)).Plus(spent)
    case RangeOver(owner, collection, material, lo, hi, cap) =>
      var (at, spent) :- Owner(Eval(owner, env, bindings, 0));
      RangeIn(at, EvalCollection(at, collection, material, env, bindings),
              Interval(Eval(lo, env, bindings, 0), Eval(hi, env, bindings, 0)),
              Eval(cap, env, bindings, 0)).Plus(spent)
  }

  /** The slot a target's leaves sit under, where it names one. */
  function SlotOf(target: TargetExpr): Option<SlotRef> {
    match target
    case PointAt(key) => if key.ChildKey? then Some(key.slot) else None
    case EntryAt(_, collection, _, _) => Some(collection)
    case RangeOver(_, collection, _, _, _, _) => Some(collection)
  }

  /** A fixed slot answers from the declared widths; anything else is bounded at the cap. */
  function WidthOf(target: TargetExpr, env: Inputs): Word32 {
    var slot := SlotOf(target);
    if slot.Some? && slot.value.Fixed? then env.widths(slot.value.slot) else MAX_SLOT_WIDTH
  }

  function Reserving(amount: Priced<Answer>): Priced<Mode> {
    var (most, spent) :- Wide(amount);
    Priced(Ok(Reserve(most)), spent)
  }

  function EvalMode(mode: ModeExpr, env: Inputs, bindings: seq<Value>): Priced<Mode> {
    match mode
    case ReadMode => Priced(Ok(Read), 0)
    case DeltaMode(moves) => Priced(Ok(Delta(moves)), 0)
    case ReserveMode(amount) => Reserving(Eval(amount, env, bindings, 0))
    case WriteMode(moves) => Priced(Ok(Write(moves)), 0)
  }

  function PlacedFrom(target: Priced<EffectTarget>, width: Word32, mode: Priced<Mode>): Priced<Placed> {
    var (at, spent) :- target;
    var (how, spent) :- mode.Plus(spent);
    Priced(Ok(Placed(at, width, how)), spent)
  }

  function EvalPlaced(target: TargetExpr, mode: ModeExpr, env: Inputs, bindings: seq<Value>): Priced<Placed> {
    PlacedFrom(EvalTarget(target, env, bindings), WidthOf(target, env), EvalMode(mode, env, bindings))
  }

  // ------------------------------------------------------- what an access carries

  function HeldFrom(resource: Priced<Answer>): Priced<ResourceAddr> {
    var (held, spent) :- resource;
    Priced(AsHeldResource(held.value), spent)
  }

  function EvalHolds(denomination: Option<Expr>, env: Inputs, bindings: seq<Value>): Priced<Option<ResourceAddr>> {
    if denomination.None? then Priced(Ok(None), 0)
    else
      var (resource, spent) :- HeldFrom(Eval(denomination.value, env, bindings, 0));
      Priced(Ok(Some(resource)), spent)
  }

  /** The expression a target's key is derived from first. */
  function KeyingResource(target: TargetExpr): Option<Expr> {
    var material := match target
      case PointAt(key) => if key.ChildKey? then key.material else []
      case EntryAt(_, _, material, _) => material
      case RangeOver(_, _, material, _, _, _) => material;
    if material == [] then None else Some(material[0])
  }

  function EvalReach(reach: Option<Behaviour>, target: TargetExpr, env: Inputs, bindings: seq<Value>)
    : Priced<Option<Reach>>
  {
    if reach.None? then Priced(Ok(None), 0)
    else
      var keyed := KeyingResource(target);
      if keyed.None? then Priced(Err(UnkeyedReach), 0)
      else
        var (resource, spent) :- HeldFrom(Eval(keyed.value, env, bindings, 0));
        Priced(Ok(Some(Reach(reach.value, resource))), spent)
  }

  function BorneFrom(holds: Priced<Option<ResourceAddr>>, reach: Priced<Option<Reach>>): Priced<Borne> {
    var (held, spent) :- holds;
    var (reached, spent) :- reach.Plus(spent);
    Priced(Ok(Borne(held, reached)), spent)
  }

  function EvalBorne(
      target: TargetExpr, denomination: Option<Expr>, reach: Option<Behaviour>, env: Inputs, bindings: seq<Value>)
    : Priced<Borne>
  {
    BorneFrom(EvalHolds(denomination, env, bindings), EvalReach(reach, target, env, bindings))
  }

  // --------------------------------------------------------------- rules and claims

  function ClaimFrom(named: Priced<Answer>): Priced<JudgedLeaf> {
    var (held, spent) :- named;
    var (claim, spent) :- Priced(AsClaim(held.value), spent);
    Priced(Ok(JudgedClaim(claim)), spent)
  }

  function StoredFrom(cell: Priced<Answer>): Priced<JudgedLeaf> {
    var (key, spent) :- Keyed(cell);
    Priced(Ok(JudgedStored(key)), spent)
  }

  function PresenceFrom(target: Priced<EffectTarget>, wanted: Presence): Priced<JudgedLeaf> {
    var (at, spent) :- target;
    Priced(Ok(JudgedPresence(at, wanted)), spent)
  }

  function EvalLeaf(leaf: RuleLeaf, env: Inputs, bindings: seq<Value>): Priced<JudgedLeaf> {
    match leaf
    case NamedClaim(claim) => ClaimFrom(Eval(claim, env, bindings, 0))
    case StoredAt(cell) => StoredFrom(Eval(cell, env, bindings, 0))
    case PresenceOf(target, wanted) => PresenceFrom(EvalTarget(target, env, bindings), wanted)
  }

  function Required<L>(leaf: Priced<L>): Priced<Rule<L>> {
    var (judged, spent) :- leaf;
    Priced(Ok(Require(judged)), spent)
  }

  function Counting<L>(count: Byte, rules: Priced<seq<Rule<L>>>): Priced<Rule<L>> {
    var (branches, spent) :- rules;
    Priced(Ok(CountOf(count, branches)), spent)
  }

  /** Leaf for leaf: the tree declared is the tree judged. */
  function PriceLeaves<L, M>(rule: Rule<L>, price: L -> Priced<M>): Priced<Rule<M>>
    decreases rule
  {
    match rule
    case Require(leaf) => Required(price(leaf))
    case CountOf(count, rules) => Counting(count, PriceLeavesAll(rules, price))
  }

  function PriceLeavesAll<L, M>(rules: seq<Rule<L>>, price: L -> Priced<M>): Priced<seq<Rule<M>>>
    decreases rules
  {
    if rules == [] then Priced(Ok([]), 0)
    else Then(PriceLeaves(rules[0], price), PriceLeavesAll(rules[1..], price))
  }

  function EvalCondition(rule: RuleExpr, env: Inputs, bindings: seq<Value>): Priced<Rule<JudgedLeaf>> {
    PriceLeaves(rule, leaf => EvalLeaf(leaf, env, bindings))
  }

  function ProvenFrom(e: Expr, claim: Priced<Answer>): Priced<Claim> {
    var (held, spent) :- claim;
    Priced(AsProven(e, held.value), spent)
  }

  function ItemsFrom(list: Priced<Answer>): Priced<seq<Value>> {
    var (kept, spent) :- Kept(list);
    Priced(AsItems(kept), spent)
  }

  /** How a call's clauses evaluate. */
  function PartsOf(env: Inputs): Parts {
    Parts(
      (e, bindings) => Flag(Eval(e, env, bindings, 0)),
      (target, mode, bindings) => EvalPlaced(target, mode, env, bindings),
      (target, denomination, reach, bindings) => EvalBorne(target, denomination, reach, env, bindings),
      (rule, bindings) => EvalCondition(rule, env, bindings),
      (e, bindings) => ProvenFrom(e, Eval(e, env, bindings, 0)),
      (list, bindings) => ItemsFrom(Eval(list, env, bindings, 0)))
  }

  // ------------------------------------------------------------ the tree that is judged

  /** Each leaf of the judged tree is its declared twin, evaluated. */
  lemma {:induction false} JudgedLeavesAlign<L, M>(rule: Rule<L>, price: L -> Priced<M>)
    requires PriceLeaves(rule, price).result.Ok?
    ensures var judged := Leaves(PriceLeaves(rule, price).result.value);
            && |judged| == |Leaves(rule)|
            && forall i :: 0 <= i < |judged| ==> price(Leaves(rule)[i]).result == Ok(judged[i])
    decreases rule
  {
    match rule
    case Require(_) =>
    case CountOf(_, rules) => JudgedLeavesAlignAll(rules, price);
  }

  lemma {:induction false} JudgedLeavesAlignAll<L, M>(rules: seq<Rule<L>>, price: L -> Priced<M>)
    requires PriceLeavesAll(rules, price).result.Ok?
    ensures var judged := LeavesAll(PriceLeavesAll(rules, price).result.value);
            && |judged| == |LeavesAll(rules)|
            && forall i :: 0 <= i < |judged| ==> price(LeavesAll(rules)[i]).result == Ok(judged[i])
    decreases rules
  {
    if rules != [] {
      JudgedLeavesAlign(rules[0], price);
      JudgedLeavesAlignAll(rules[1..], price);
      var all := PriceLeavesAll(rules, price).result.value;
      assert all[1..] == PriceLeavesAll(rules[1..], price).result.value;
    }
  }

  /** Evaluating leaf for leaf is mapping leaf for leaf, its cost aside. */
  lemma {:induction false} PricingIsMapping<L(!new), M>(rule: Rule<L>, price: L -> Priced<M>, map_: L -> Outcome<M>)
    requires forall leaf :: map_(leaf) == price(leaf).result
    ensures PriceLeaves(rule, price).result == MapLeaves(rule, map_)
    decreases rule
  {
    match rule
    case Require(_) =>
    case CountOf(_, rules) => PricingIsMappingAll(rules, price, map_);
  }

  lemma {:induction false} PricingIsMappingAll<L(
      !new), M>(rules: seq<Rule<L>>, price: L -> Priced<M>, map_: L -> Outcome<M>)
    requires forall leaf :: map_(leaf) == price(leaf).result
    ensures PriceLeavesAll(rules, price).result == MapLeavesAll(rules, map_)
    decreases rules
  {
    if rules != [] {
      PricingIsMapping(rules[0], price, map_);
      PricingIsMappingAll(rules[1..], price, map_);
    }
  }

  /** A declared rule and the rule it evaluates into are judged at one stage, and are within
      the caps together. */
  lemma {:induction false} ConditionsKeepTheirStage(rule: RuleExpr, env: Inputs, bindings: seq<Value>, depth: nat)
    requires EvalCondition(rule, env, bindings).result.Ok?
    ensures var judged := EvalCondition(rule, env, bindings).result.value;
            && Place(StageSet(judged, JudgedLeafStage)) == Place(StageSet(rule, RuleLeafStage))
            && (WithinCaps(judged, depth) <==> WithinCaps(rule, depth))
  {
    hide EvalLeaf;
    var price := leaf => EvalLeaf(leaf, env, bindings);
    var map_ := leaf => EvalLeaf(leaf, env, bindings).result;
    var judged := EvalCondition(rule, env, bindings).result.value;
    PricingIsMapping(rule, price, map_);
    forall leaf | map_(leaf).Ok? ensures JudgedLeafStage(map_(leaf).value) == RuleLeafStage(leaf) {
      LeavesKeepTheirStage(leaf, env, bindings);
    }
    MappingKeepsStages(rule, map_, RuleLeafStage, JudgedLeafStage);
    TwinsAreJudgedTogether(judged, JudgedLeafStage, rule, RuleLeafStage);
    TwinsAreWithinCapsTogether(judged, JudgedLeafStage, depth);
    TwinsAreWithinCapsTogether(rule, RuleLeafStage, depth);
  }

  lemma {:induction false} LeavesKeepTheirStage(leaf: RuleLeaf, env: Inputs, bindings: seq<Value>)
    ensures var judged := EvalLeaf(leaf, env, bindings).result;
            judged.Ok? ==> JudgedLeafStage(judged.value) == RuleLeafStage(leaf)
  {
    hide Eval, EvalTarget;
  }
}
