/** What a clause's parts are, told by what the expressions inside them answer. */
module Readings {
  import opened Vocabulary
  import opened Syntax
  import opened Evaluation
  import opened Clauses
  import opened Targets
  import opened Meaning
  import opened Laws

  /** What an expression of a clause answers over the elements around it. */
  function Told(e: Expr, env: Inputs, bindings: seq<Value>): Option<Value> { Says(e, env, bindings, 0) }

  /** An expression answers the number `n`, in either width. */
  predicate TellsNumber(e: Expr, env: Inputs, bindings: seq<Value>, n: nat) {
    var v := Told(e, env, bindings);
    v.Some? && ((v.value.VU64? && v.value.word == n) || (v.value.VU128? && v.value.wide == n))
  }

  predicate TellsAddress(e: Expr, env: Inputs, bindings: seq<Value>, a: Address) {
    Told(e, env, bindings) == Some(VAddress(a))
  }

  // ----------------------------------------------------------------------- collections

  /** A slot spelled out is itself; one an argument names is a package's own, or the vault's. */
  predicate TellsSlot(slot: SlotRef, point: bool, env: Inputs, bindings: seq<Value>, s: Word16) {
    match slot
    case Fixed(fixed) => s == fixed
    case Reached(named) =>
      && Told(named, env, bindings) == Some(VU64(s))
      && (PACKAGE_SLOT_BASE <= s < KERNEL_SLOT_BASE || s == if point then VAULT else NF_VAULT)
  }

  /** A collection is the hash of its owner, its slot and the encodings of its material, in order. */
  ghost predicate TellsCollection(owner: Address, slot: SlotRef, material: seq<Expr>, env: Inputs, bindings: seq<Value>,
                                  id: Bytes)
  {
    exists s: Word16, vs: seq<Value> :: TellsCollectionBy(owner, slot, material, env, bindings, id, s, vs)
  }

  predicate TellsCollectionBy(owner: Address, slot: SlotRef, material: seq<Expr>, env: Inputs, bindings: seq<Value>,
                              id: Bytes, s: Word16, vs: seq<Value>)
  {
    && TellsSlot(slot, false, env, bindings, s)
    && AllSay(material, env, bindings, 0, vs)
    && id == env.seam.hash(CollectionDomain, [owner.ToBytes(), Le16(s)] + Encodings(env, vs))
  }

  lemma {:induction false} SlotsTell(slot: SlotRef, point: bool, env: Inputs, bindings: seq<Value>, s: Word16)
    ensures EvalSlot(slot, point, env, bindings, 0).result == Ok(s) <==> TellsSlot(slot, point, env, bindings, s)
  {
    if slot.Reached? {
      var p := Eval(slot.named, env, bindings, 0);
      assert EvalSlot(slot, point, env, bindings, 0) == ReachedFrom(p, point);
      hide Eval;
    }
  }

  lemma {:induction false} EncodedInOrder(es: seq<Expr>, env: Inputs, bindings: seq<Value>)
    returns (vs: seq<Value>)
    ensures EvalMaterial(es, env, bindings, 0).result.Ok? <==> AllSay(es, env, bindings, 0, vs)
    ensures forall others :: AllSay(es, env, bindings, 0, others) ==> others == vs
    ensures EvalMaterial(es, env, bindings, 0).result.Ok? ==>
              EvalMaterial(es, env, bindings, 0).result.value == Encodings(env, vs)
    decreases |es|
  {
    vs := [];
    if es != [] {
      var p, rest := Eval(es[0], env, bindings, 0), EvalMaterial(es[1..], env, bindings, 0);
      assert EvalMaterial(es, env, bindings, 0) == Then(Encoded(env, p), rest);
      hide Eval, EvalMaterial;
      var tail := EncodedInOrder(es[1..], env, bindings);
      var first := Says(es[0], env, bindings, 0);
      if first.Some? {
        vs := [first.value] + tail;
        assert Encodings(env, vs) == [env.seam.encode(first.value)] + Encodings(env, tail);
        assert vs[1..] == tail;
      }
      AllSayFirst(es, env, bindings, vs);
      forall others | AllSay(es, env, bindings, 0, others) ensures others == vs {
        AllSayFirst(es, env, bindings, others);
        assert others == [others[0]] + others[1..];
      }
    }
  }

  lemma {:induction false} AllSayFirst(es: seq<Expr>, env: Inputs, bindings: seq<Value>, vs: seq<Value>)
    requires es != []
    ensures AllSay(es, env, bindings, 0, vs) <==>
            vs != [] && Says(es[0], env, bindings, 0) == Some(vs[0]) && AllSay(es[1..], env, bindings, 0, vs[1..])
  {
    hide Says;
    if vs != [] {
      assert forall i :: 0 <= i < |es[1..]| ==> es[1..][i] == es[i + 1];
      if Says(es[0], env, bindings, 0) == Some(vs[0]) && AllSay(es[1..], env, bindings, 0, vs[1..]) {
        forall i | 0 <= i < |es| ensures Says(es[i], env, bindings, 0) == Some(vs[i]) {
          if i > 0 {
            assert es[1..][i - 1] == es[i] && vs[1..][i - 1] == vs[i];
          }
        }
      }
    }
  }

  lemma {:induction false} CollectionsTell(
    owner: Address, slot: SlotRef, material: seq<Expr>, env: Inputs, bindings: seq<Value>, id: Bytes)
    ensures EvalCollection(owner, slot, material, env, bindings).result == Ok(id) <==>
            TellsCollection(owner, slot, material, env, bindings, id)
  {
    hide EvalSlot, EvalMaterial, TellsSlot, AllSay;
    var vs := EncodedInOrder(material, env, bindings);
    var under := EvalSlot(slot, false, env, bindings, 0).result;
    if under.Ok? {
      SlotsTell(slot, false, env, bindings, under.value);
      if EvalCollection(owner, slot, material, env, bindings).result == Ok(id) {
        assert TellsCollectionBy(owner, slot, material, env, bindings, id, under.value, vs);
      }
    }
    if s, others :| TellsCollectionBy(owner, slot, material, env, bindings, id, s, others) {
      SlotsTell(slot, false, env, bindings, s);
      assert others == vs;
    }
  }

  // ---------------------------------------------------------------- targets and modes

  /** A target is what its expressions answer, and every interval runs upward. */
  ghost predicate TellsTarget(target: TargetExpr, env: Inputs, bindings: seq<Value>, t: EffectTarget) {
    match target
    case PointAt(key) => t.Point? && Told(key, env, bindings) == Some(VKey(t.key))
    case EntryAt(owner, collection, material, order) =>
      && t.Entry? && TellsAddress(owner, env, bindings, t.owner)
      && TellsCollection(t.owner, collection, material, env, bindings, t.collection)
      && TellsNumber(order, env, bindings, t.order)
    case RangeOver(owner, collection, material, lo, hi, cap) =>
      && t.Range? && TellsAddress(owner, env, bindings, t.owner)
      && TellsCollection(t.owner, collection, material, env, bindings, t.collection)
      && TellsNumber(lo, env, bindings, t.lo) && TellsNumber(hi, env, bindings, t.hi) && t.lo <= t.hi
      && TellsNumber(cap, env, bindings, t.cap)
  }

  /** A reserve is of the number its expression answers; every other mode is spelled out. */
  predicate TellsMode(mode: ModeExpr, env: Inputs, bindings: seq<Value>, m: Mode) {
    match mode
    case ReadMode => m == Read
    case DeltaMode(moves) => m == Delta(moves)
    case WriteMode(moves) => m == Write(moves)
    case ReserveMode(amount) => m.Reserve? && TellsNumber(amount, env, bindings, m.amount)
  }

  lemma {:induction false} NumbersTell(e: Expr, env: Inputs, bindings: seq<Value>, n: Word128)
    ensures Wide(Eval(e, env, bindings, 0)).result == Ok(n) <==> TellsNumber(e, env, bindings, n)
  {
    hide Eval;
  }

  lemma {:induction false} CapsTell(e: Expr, env: Inputs, bindings: seq<Value>, n: Word32)
    ensures Cap(Eval(e, env, bindings, 0)).result == Ok(n) <==> TellsNumber(e, env, bindings, n)
  {
    hide Eval;
  }

  lemma {:induction false} OwnersTell(e: Expr, env: Inputs, bindings: seq<Value>, a: Address)
    ensures Owner(Eval(e, env, bindings, 0)).result == Ok(a) <==> TellsAddress(e, env, bindings, a)
  {
    hide Eval;
  }

  /** A target evaluates to exactly the target its expressions tell of. */
  lemma {:induction false} TargetsTell(target: TargetExpr, env: Inputs, bindings: seq<Value>, t: EffectTarget)
    ensures EvalTarget(target, env, bindings).result == Ok(t) <==> TellsTarget(target, env, bindings, t)
  {
    match target
    case PointAt(key) =>
      hide Eval;
    case EntryAt(_, _, _, _) => EntriesTell(target, env, bindings, t);
    case RangeOver(_, _, _, _, _, _) => RangesTell(target, env, bindings, t);
  }

  lemma {:induction false} EntriesTell(target: TargetExpr, env: Inputs, bindings: seq<Value>, t: EffectTarget)
    requires target.EntryAt?
    ensures EvalTarget(target, env, bindings).result == Ok(t) <==> TellsTarget(target, env, bindings, t)
  {
    hide Eval, EvalCollection, TellsCollection, TellsNumber, TellsAddress, Wide, Evaluation.Owner;
    var evaluated := EvalTarget(target, env, bindings).result;
    var found := if evaluated.Ok? then evaluated.value else t;
    if found.Entry? {
      OwnersTell(target.owner, env, bindings, found.owner);
      CollectionsTell(found.owner, target.collection, target.material, env, bindings, found.collection);
      NumbersTell(target.order, env, bindings, found.order);
    }
    if t.Entry? {
      OwnersTell(target.owner, env, bindings, t.owner);
      CollectionsTell(t.owner, target.collection, target.material, env, bindings, t.collection);
      NumbersTell(target.order, env, bindings, t.order);
    }
  }

  lemma {:induction false} RangesTell(target: TargetExpr, env: Inputs, bindings: seq<Value>, t: EffectTarget)
    requires target.RangeOver?
    ensures EvalTarget(target, env, bindings).result == Ok(t) <==> TellsTarget(target, env, bindings, t)
  {
    hide Eval, EvalCollection, TellsCollection, TellsNumber, TellsAddress, Wide, Cap, Evaluation.Owner;
    var evaluated := EvalTarget(target, env, bindings).result;
    if evaluated.Ok? {
      RangeTells(target, env, bindings, evaluated.value);
    }
    if t.Range? {
      RangeTells(target, env, bindings, t);
    }
  }

  lemma {:induction false} RangeTells(target: TargetExpr, env: Inputs, bindings: seq<Value>, t: EffectTarget)
    requires target.RangeOver? && t.Range?
    ensures Evaluation.Owner(Eval(target.owner, env, bindings, 0)).result == Ok(t.owner) <==>
            TellsAddress(target.owner, env, bindings, t.owner)
    ensures EvalCollection(t.owner, target.collection, target.material, env, bindings).result == Ok(t.collection) <==>
            TellsCollection(t.owner, target.collection, target.material, env, bindings, t.collection)
    ensures Wide(Eval(target.lo, env, bindings, 0)).result == Ok(t.lo) <==> TellsNumber(target.lo, env, bindings, t.lo)
    ensures Wide(Eval(target.hi, env, bindings, 0)).result == Ok(t.hi) <==> TellsNumber(target.hi, env, bindings, t.hi)
    ensures Cap(Eval(target.cap, env, bindings, 0)).result == Ok(t.cap) <==>
            TellsNumber(target.cap, env, bindings, t.cap)
  {
    hide Eval, EvalCollection, TellsCollection, TellsNumber, TellsAddress, Wide, Cap, Evaluation.Owner;
    OwnersTell(target.owner, env, bindings, t.owner);
    CollectionsTell(t.owner, target.collection, target.material, env, bindings, t.collection);
    NumbersTell(target.lo, env, bindings, t.lo);
    NumbersTell(target.hi, env, bindings, t.hi);
    CapsTell(target.cap, env, bindings, t.cap);
  }

  /** A mode evaluates to exactly the mode its expression tells of. */
  lemma {:induction false} ModesTell(mode: ModeExpr, env: Inputs, bindings: seq<Value>, m: Mode)
    ensures EvalMode(mode, env, bindings).result == Ok(m) <==> TellsMode(mode, env, bindings, m)
  {
    hide Eval, TellsNumber;
    if mode.ReserveMode? {
      var amount := Wide(Eval(mode.amount, env, bindings, 0)).result;
      if amount.Ok? {
        NumbersTell(mode.amount, env, bindings, amount.value);
      }
      if m.Reserve? {
        NumbersTell(mode.amount, env, bindings, m.amount);
      }
    }
  }

  /** The leaves a target reaches are as wide as its spelled-out slot says, and bounded by the cap otherwise. */
  predicate TellsWidth(target: TargetExpr, env: Inputs, width: Word32) {
    match target
    case PointAt(ChildKey(_, Fixed(s), _)) => width == env.widths(s)
    case EntryAt(_, Fixed(s), _, _) => width == env.widths(s)
    case RangeOver(_, Fixed(s), _, _, _, _) => width == env.widths(s)
    case _ => width == 16 * 1024
  }

  // -------------------------------------------------------------- what an access carries

  /** The resource an expression answers the address of. */
  predicate TellsResource(e: Expr, env: Inputs, bindings: seq<Value>, r: ResourceAddr) {
    TellsAddress(e, env, bindings, r)
  }

  predicate TellsHolds(denomination: Option<Expr>, env: Inputs, bindings: seq<Value>, holds: Option<ResourceAddr>) {
    match denomination
    case None => holds.None?
    case Some(e) => holds.Some? && TellsResource(e, env, bindings, holds.value)
  }

  /** The first expression a target's key or collection is derived from. */
  predicate KeyedBy(target: TargetExpr, e: Expr) {
    match target
    case PointAt(key) => key.ChildKey? && key.material != [] && key.material[0] == e
    case EntryAt(_, _, material, _) => material != [] && material[0] == e
    case RangeOver(_, _, material, _, _, _) => material != [] && material[0] == e
  }

  /** A reach is under its behaviour, of the resource the target is keyed by. */
  ghost predicate TellsReach(
      reach: Option<Behaviour>, target: TargetExpr, env: Inputs, bindings: seq<Value>, r: Option<Reach>)
  {
    match reach
    case None => r.None?
    case Some(b) =>
      && r.Some? && r.value.behaviour == b
      && exists e :: KeyedBy(target, e) && TellsResource(e, env, bindings, r.value.resource)
  }

  lemma {:induction false} ResourcesTell(e: Expr, env: Inputs, bindings: seq<Value>, r: ResourceAddr)
    ensures HeldFrom(Eval(e, env, bindings, 0)).result == Ok(r) <==> TellsResource(e, env, bindings, r)
  {
    hide Eval;
  }

  lemma {:induction false} HoldsTell(
      denomination: Option<Expr>, env: Inputs, bindings: seq<Value>, holds: Option<ResourceAddr>)
    ensures EvalHolds(denomination, env, bindings).result == Ok(holds) <==>
            TellsHolds(denomination, env, bindings, holds)
  {
    hide Eval, HeldFrom, TellsResource;
    if denomination.Some? {
      var held := HeldFrom(Eval(denomination.value, env, bindings, 0)).result;
      if held.Ok? {
        ResourcesTell(denomination.value, env, bindings, held.value);
      }
      if holds.Some? {
        ResourcesTell(denomination.value, env, bindings, holds.value);
      }
    }
  }

  lemma {:induction false} KeysTell(target: TargetExpr, e: Expr)
    ensures KeyingResource(target) == Some(e) <==> KeyedBy(target, e)
  {}

  lemma {:induction false} ReachesTell(
      reach: Option<Behaviour>, target: TargetExpr, env: Inputs, bindings: seq<Value>, r: Option<Reach>)
    ensures EvalReach(reach, target, env, bindings).result == Ok(r) <==> TellsReach(reach, target, env, bindings, r)
  {
    hide Eval, HeldFrom, TellsResource, KeyingResource, KeyedBy;
    if reach.Some? {
      var keyed := KeyingResource(target);
      forall e ensures keyed == Some(e) <==> KeyedBy(target, e) {
        KeysTell(target, e);
      }
      if keyed.Some? {
        var held := HeldFrom(Eval(keyed.value, env, bindings, 0)).result;
        if held.Ok? {
          ResourcesTell(keyed.value, env, bindings, held.value);
        }
        if r.Some? {
          ResourcesTell(keyed.value, env, bindings, r.value.resource);
        }
      }
    }
  }

  // ------------------------------------------------------------------- rules and claims

  /** The claim an expression answers: an address is the claim to it, and a resource's address
      beside an id the claim to that instance. */
  predicate TellsClaim(e: Expr, env: Inputs, bindings: seq<Value>, claim: Claim) {
    var v := Told(e, env, bindings);
    match claim.instance
    case None => v == Some(VAddress(claim.subject)) && (claim.subject.IsResource() || claim.subject.IsCallable())
    case Some(id) => v == Some(VTuple([VAddress(claim.subject), VU64(id)])) && claim.subject.IsResource()
  }

  lemma {:induction false} ClaimsTell(e: Expr, env: Inputs, bindings: seq<Value>, claim: Claim)
    ensures var v := Told(e, env, bindings);
            v.Some? && AsClaim(v.value) == Ok(claim) <==> TellsClaim(e, env, bindings, claim)
  {
    hide Eval;
    var v := Told(e, env, bindings);
    if v.Some? && v.value.VTuple? && |v.value.fields| == 2 {
      assert v.value.fields == [v.value.fields[0], v.value.fields[1]];
    }
  }

  ghost predicate TellsLeaf(leaf: RuleLeaf, env: Inputs, bindings: seq<Value>, judged: JudgedLeaf) {
    match leaf
    case NamedClaim(e) => judged.JudgedClaim? && TellsClaim(e, env, bindings, judged.claim)
    case StoredAt(cell) => judged.JudgedStored? && Told(cell, env, bindings) == Some(VKey(judged.cell))
    case PresenceOf(target, wanted) =>
      judged.JudgedPresence? && judged.wanted == wanted && TellsTarget(target, env, bindings, judged.target)
  }

  /** The judged tree has the declared one's shape and counts, and each leaf is what its own tells. */
  ghost predicate TellsRule(rule: RuleExpr, env: Inputs, bindings: seq<Value>, judged: Rule<JudgedLeaf>)
    decreases rule
  {
    match rule
    case Require(leaf) => judged.Require? && TellsLeaf(leaf, env, bindings, judged.leaf)
    case CountOf(count, rules) =>
      && judged.CountOf? && judged.count == count && |judged.rules| == |rules|
      && forall i :: 0 <= i < |rules| ==> TellsRule(rules[i], env, bindings, judged.rules[i])
  }

  lemma {:induction false} LeavesTell(leaf: RuleLeaf, env: Inputs, bindings: seq<Value>, judged: JudgedLeaf)
    ensures EvalLeaf(leaf, env, bindings).result == Ok(judged) <==> TellsLeaf(leaf, env, bindings, judged)
  {
    hide Eval, EvalTarget, TellsTarget, AsClaim, TellsClaim;
    match leaf
    case NamedClaim(e) =>
      var v := Told(e, env, bindings);
      if v.Some? && AsClaim(v.value).Ok? {
        ClaimsTell(e, env, bindings, AsClaim(v.value).value);
      }
      if judged.JudgedClaim? {
        ClaimsTell(e, env, bindings, judged.claim);
      }
    case StoredAt(_) =>
    case PresenceOf(target, _) =>
      var at := EvalTarget(target, env, bindings).result;
      if at.Ok? {
        TargetsTell(target, env, bindings, at.value);
      }
      if judged.JudgedPresence? {
        TargetsTell(target, env, bindings, judged.target);
      }
  }

  /** A condition evaluates to exactly the tree its expressions tell of. */
  lemma {:induction false} RulesTell(rule: RuleExpr, env: Inputs, bindings: seq<Value>, judged: Rule<JudgedLeaf>)
    ensures EvalCondition(rule, env, bindings).result == Ok(judged) <==> TellsRule(rule, env, bindings, judged)
    decreases rule
  {
    hide EvalLeaf, TellsLeaf;
    var price := leaf => EvalLeaf(leaf, env, bindings);
    match rule
    case Require(leaf) =>
      var at := EvalLeaf(leaf, env, bindings).result;
      if at.Ok? {
        LeavesTell(leaf, env, bindings, at.value);
      }
      if judged.Require? {
        LeavesTell(leaf, env, bindings, judged.leaf);
      }
    case CountOf(_, rules) =>
      if judged.CountOf? {
        BranchesTell(rules, env, bindings, judged.rules);
      }
  }

  lemma {:induction false} BranchesTell(
      rules: seq<RuleExpr>, env: Inputs, bindings: seq<Value>, judged: seq<Rule<JudgedLeaf>>)
    ensures PriceLeavesAll(rules, leaf => EvalLeaf(leaf, env, bindings)).result == Ok(judged) <==>
            && |judged| == |rules|
            && forall i :: 0 <= i < |rules| ==> TellsRule(rules[i], env, bindings, judged[i])
    decreases rules
  {
    hide EvalLeaf, TellsRule;
    if rules != [] && judged != [] {
      RulesTell(rules[0], env, bindings, judged[0]);
      BranchesTell(rules[1..], env, bindings, judged[1..]);
      assert judged == [judged[0]] + judged[1..];
      assert forall i :: 0 <= i < |rules[1..]| ==> rules[1..][i] == rules[i + 1];
      assert |judged| == |rules| ==> forall i :: 0 <= i < |rules[1..]| ==> judged[1..][i] == judged[i + 1];
    }
  }

  /** A proven claim is a badge's, or the target's own spelled as itself. */
  predicate TellsProven(e: Expr, env: Inputs, bindings: seq<Value>, claim: Claim) {
    TellsClaim(e, env, bindings, claim) && (claim.subject.IsResource() || e.SelfAddr?)
  }

  lemma {:induction false} ProofsTell(e: Expr, env: Inputs, bindings: seq<Value>, claim: Claim)
    ensures ProvenFrom(e, Eval(e, env, bindings, 0)).result == Ok(claim) <==> TellsProven(e, env, bindings, claim)
  {
    hide Eval, AsClaim, TellsClaim;
    var v := Told(e, env, bindings);
    if v.Some? && AsClaim(v.value).Ok? {
      ClaimsTell(e, env, bindings, AsClaim(v.value).value);
    }
    ClaimsTell(e, env, bindings, claim);
  }

  /** What a loop maps: a list its expression answers, no longer than the bound. */
  predicate TellsItems(list: Expr, env: Inputs, bindings: seq<Value>, items: seq<Value>) {
    Told(list, env, bindings) == Some(VList(items)) && |items| <= 1024
  }

  lemma {:induction false} ItemsTell(list: Expr, env: Inputs, bindings: seq<Value>, items: seq<Value>)
    ensures ItemsFrom(Eval(list, env, bindings, 0)).result == Ok(items) <==> TellsItems(list, env, bindings, items)
  {
    hide Eval;
  }
}
