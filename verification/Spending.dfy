/** What a declaration spends: the price of every expression it reads, and nothing else. */
module Spending {
  import opened Vocabulary
  import opened Syntax
  import opened Rules
  import opened Evaluation
  import opened Clauses
  import opened Targets
  import opened Meaning

  // --------------------------------------------------------------------- bills

  /** What reading an expression costs over the elements around it. */
  function Cost(e: Expr, env: Inputs, bindings: seq<Value>): nat { Price(e, env, Inside(bindings)) }

  function MaybeCost(e: Option<Expr>, env: Inputs, bindings: seq<Value>): nat {
    if e.Some? then Cost(e.value, env, bindings) else 0
  }

  /** Material is read, and each part of it walked to be encoded. */
  function MaterialBill(es: seq<Expr>, env: Inputs, bindings: seq<Value>): nat {
    if es == [] then 0
    else Cost(es[0], env, bindings) + Size(Means(es[0], env, Inside(bindings))) + MaterialBill(es[1..], env, bindings)
  }

  /** A collection is one hash over its slot and its material. */
  function CollectionBill(slot: SlotRef, material: seq<Expr>, env: Inputs, bindings: seq<Value>): nat {
    (if slot.Reached? then Cost(slot.named, env, bindings) else 0) + MaterialBill(material, env, bindings) + 8
  }

  function TargetBill(target: TargetExpr, env: Inputs, bindings: seq<Value>): nat {
    match target
    case PointAt(key) => Cost(key, env, bindings)
    case EntryAt(owner, slot, material, order) =>
      Cost(owner, env, bindings) + CollectionBill(slot, material, env, bindings) + Cost(order, env, bindings)
    case RangeOver(owner, slot, material, lo, hi, cap) =>
      Cost(owner, env, bindings) + CollectionBill(slot, material, env, bindings)
      + Cost(lo, env, bindings) + Cost(hi, env, bindings) + Cost(cap, env, bindings)
  }

  function LeafBill(leaf: RuleLeaf, env: Inputs, bindings: seq<Value>): nat {
    match leaf
    case NamedClaim(e) => Cost(e, env, bindings)
    case StoredAt(cell) => Cost(cell, env, bindings)
    case PresenceOf(target, _) => TargetBill(target, env, bindings)
  }

  /** A rule costs its leaves, whatever its tree. */
  function LeavesBill(leaves: seq<RuleLeaf>, env: Inputs, bindings: seq<Value>): nat {
    if leaves == [] then 0 else LeafBill(leaves[0], env, bindings) + LeavesBill(leaves[1..], env, bindings)
  }

  /** What a clause that is taken costs, its elements aside. */
  function LineBill(c: Clause, env: Inputs, bindings: seq<Value>): nat {
    match c
    case Access(_, target, mode, denomination, reach) =>
      TargetBill(target, env, bindings)
      + (if mode.ReserveMode? then Cost(mode.amount, env, bindings) else 0)
      + MaybeCost(denomination, env, bindings)
      + (if reach.Some? then MaybeCost(KeyingResource(target), env, bindings) else 0)
    case Requires(_, rule) => LeavesBill(Leaves(rule), env, bindings)
    case Proves(_, claim) => Cost(claim, env, bindings)
    case ForEach(_, list, _) =>
      Cost(list, env, bindings)
      + (if InPlace(list, env, Inside(bindings)) then Size(Means(list, env, Inside(bindings))) else 0)
  }

  /** A clause costs its guard and, where that holds, its own line and a pass for every element. */
  function ClauseBill(c: Clause, env: Inputs, bindings: seq<Value>): nat
    decreases c, 1
  {
    MaybeCost(c.guard, env, bindings)
    + if c.guard.Some? && Means(c.guard.value, env, Inside(bindings)) != Some(VBool(true)) then 0
      else LineBill(c, env, bindings)
           + if c.ForEach? then PassesBill(Elements(c, env, bindings), c.body, env, bindings) else 0
  }

  function Elements(c: Clause, env: Inputs, bindings: seq<Value>): seq<Value>
    requires c.ForEach?
  {
    var v := Means(c.list, env, Inside(bindings));
    if v.Some? && v.value.VList? then v.value.elements else []
  }

  function PassesBill(items: seq<Value>, body: seq<Clause>, env: Inputs, bindings: seq<Value>): nat
    decreases body, 1, |items|
  {
    if items == [] then 0
    else BodyBill(body, env, bindings + [items[0]]) + PassesBill(items[1..], body, env, bindings)
  }

  function BodyBill(body: seq<Clause>, env: Inputs, bindings: seq<Value>): nat
    decreases body, 0
  {
    if body == [] then 0 else ClauseBill(body[0], env, bindings) + BodyBill(body[1..], env, bindings)
  }

  // ------------------------------------------------------------------- what is spent

  /** An answered expression costs its price and answers its meaning. */
  lemma {:induction false} Reading(e: Expr, env: Inputs, bindings: seq<Value>)
    ensures var p := Eval(e, env, bindings, 0);
            p.result.Ok? ==>
              && p.units == Cost(e, env, bindings)
              && Means(e, env, Inside(bindings)) == Some(p.result.value.value)
              && p.result.value.borrowed == InPlace(e, env, Inside(bindings))
  {
    hide Eval, Means, InPlace, Price, Tall;
    EvalFinds(e, env, bindings, 0);
  }

  lemma {:induction false} MaterialSpends(es: seq<Expr>, env: Inputs, bindings: seq<Value>)
    ensures var p := EvalMaterial(es, env, bindings, 0);
            p.result.Ok? ==> p.units == MaterialBill(es, env, bindings)
    decreases |es|
  {
    hide Eval, Means, InPlace, Price, Walked;
    if es != [] {
      Reading(es[0], env, bindings);
      MaterialSpends(es[1..], env, bindings);
    }
  }

  lemma {:induction false} CollectionsSpend(
    owner: Address, slot: SlotRef, material: seq<Expr>, env: Inputs, bindings: seq<Value>)
    ensures var p := EvalCollection(owner, slot, material, env, bindings);
            p.result.Ok? ==> p.units == CollectionBill(slot, material, env, bindings)
  {
    hide Eval, EvalMaterial, Cost, MaterialBill;
    MaterialSpends(material, env, bindings);
    if slot.Reached? {
      Reading(slot.named, env, bindings);
    }
  }

  lemma {:induction false} TargetsSpend(target: TargetExpr, env: Inputs, bindings: seq<Value>)
    ensures var p := EvalTarget(target, env, bindings);
            p.result.Ok? ==> p.units == TargetBill(target, env, bindings)
  {
    hide Eval, EvalCollection, Cost, CollectionBill;
    match target
    case PointAt(key) => Reading(key, env, bindings);
    case EntryAt(owner, slot, material, order) =>
      Reading(owner, env, bindings);
      Reading(order, env, bindings);
      var at := Owner(Eval(owner, env, bindings, 0)).result;
      if at.Ok? {
        CollectionsSpend(at.value, slot, material, env, bindings);
      }
    case RangeOver(owner, slot, material, lo, hi, cap) =>
      Reading(owner, env, bindings);
      Reading(lo, env, bindings);
      Reading(hi, env, bindings);
      Reading(cap, env, bindings);
      var at := Owner(Eval(owner, env, bindings, 0)).result;
      if at.Ok? {
        CollectionsSpend(at.value, slot, material, env, bindings);
      }
  }

  lemma {:induction false} LeavesSpend(leaf: RuleLeaf, env: Inputs, bindings: seq<Value>)
    ensures var p := EvalLeaf(leaf, env, bindings);
            p.result.Ok? ==> p.units == LeafBill(leaf, env, bindings)
  {
    hide Eval, EvalTarget, Cost, TargetBill;
    match leaf
    case NamedClaim(e) => Reading(e, env, bindings);
    case StoredAt(cell) => Reading(cell, env, bindings);
    case PresenceOf(target, _) => TargetsSpend(target, env, bindings);
  }

  lemma {:induction false} BillsAdd(a: seq<RuleLeaf>, b: seq<RuleLeaf>, env: Inputs, bindings: seq<Value>)
    ensures LeavesBill(a + b, env, bindings) == LeavesBill(a, env, bindings) + LeavesBill(b, env, bindings)
    decreases |a|
  {
    hide LeafBill;
    if a == [] {
      assert a + b == b;
    } else {
      assert (a + b)[1..] == a[1..] + b;
      BillsAdd(a[1..], b, env, bindings);
    }
  }

  lemma {:induction false} TreesSpend(rule: RuleExpr, price: RuleLeaf -> Priced<JudgedLeaf>, env: Inputs,
                                      bindings: seq<Value>)
    requires forall leaf :: price(leaf) == EvalLeaf(leaf, env, bindings)
    ensures var p := PriceLeaves(rule, price);
            p.result.Ok? ==> p.units == LeavesBill(Leaves(rule), env, bindings)
    decreases rule
  {
    hide EvalLeaf, LeafBill;
    match rule
    case Require(leaf) =>
      LeavesSpend(leaf, env, bindings);
      assert [leaf][1..] == [];
    case CountOf(_, rules) => BranchesSpend(rules, price, env, bindings);
  }

  lemma {:induction false} BranchesSpend(rules: seq<RuleExpr>, price: RuleLeaf -> Priced<JudgedLeaf>, env: Inputs,
                                         bindings: seq<Value>)
    requires forall leaf :: price(leaf) == EvalLeaf(leaf, env, bindings)
    ensures var p := PriceLeavesAll(rules, price);
            p.result.Ok? ==> p.units == LeavesBill(LeavesAll(rules), env, bindings)
    decreases rules
  {
    hide EvalLeaf, LeavesBill;
    if rules == [] {
      NothingBilled(env, bindings);
    } else {
      TreesSpend(rules[0], price, env, bindings);
      BranchesSpend(rules[1..], price, env, bindings);
      BillsAdd(Leaves(rules[0]), LeavesAll(rules[1..]), env, bindings);
    }
  }

  lemma {:induction false} NothingBilled(env: Inputs, bindings: seq<Value>)
    ensures LeavesBill([], env, bindings) == 0
  {}

  /** What placing an access spends, and what the access carries. */
  lemma {:induction false} AccessesSpend(c: Clause, env: Inputs, bindings: seq<Value>)
    requires c.Access?
    ensures var placed := EvalPlaced(c.target, c.mode, env, bindings);
            var borne := EvalBorne(c.target, c.denomination, c.reach, env, bindings);
            placed.result.Ok? && borne.result.Ok? ==> placed.units + borne.units == LineBill(c, env, bindings)
  {
    hide Eval, EvalTarget, Cost, TargetBill, KeyingResource;
    TargetsSpend(c.target, env, bindings);
    if c.mode.ReserveMode? {
      Reading(c.mode.amount, env, bindings);
    }
    if c.denomination.Some? {
      Reading(c.denomination.value, env, bindings);
    }
    if KeyingResource(c.target).Some? {
      Reading(KeyingResource(c.target).value, env, bindings);
    }
  }

  lemma {:induction false} GuardsSpend(guard: Option<Expr>, env: Inputs, bindings: seq<Value>)
    ensures var p := Taken(guard, PartsOf(env), bindings);
            p.result.Ok? ==>
              && p.units == MaybeCost(guard, env, bindings)
              && (p.result.value <==> !(guard.Some? && Means(guard.value, env, Inside(bindings)) != Some(VBool(true))))
  {
    hide Eval, Cost, Means;
    if guard.Some? {
      Reading(guard.value, env, bindings);
    }
  }

  lemma {:induction false} ListsSpend(c: Clause, env: Inputs, bindings: seq<Value>)
    requires c.ForEach?
    ensures var p := PartsOf(env).items(c.list, bindings);
            p.result.Ok? ==> p.units == LineBill(c, env, bindings) && p.result.value == Elements(c, env, bindings)
  {
    hide Eval, Cost, Means, InPlace, Walked;
    Reading(c.list, env, bindings);
  }

  lemma {:induction false} LinesSpend(
    c: Clause, env: Inputs, bindings: seq<Value>, depth: nat, index: Word32, number: Word32, d: Draft)
    requires !c.ForEach?
    ensures var p := Declare(c, PartsOf(env), bindings, depth, index, number, d);
            p.result.Ok? ==> p.units == LineBill(c, env, bindings)
  {
    hide Eval, EvalPlaced, EvalBorne, PriceLeaves, Cost, LeavesBill;
    match c
    case Access(_, _, _, _, _) =>
      AccessesSpend(c, env, bindings);
      hide LineBill;
    case Requires(_, rule) => TreesSpend(rule, leaf => EvalLeaf(leaf, env, bindings), env, bindings);
    case Proves(_, claim) => Reading(claim, env, bindings);
  }

  lemma {:induction false} ClausesSpend(
    c: Clause, env: Inputs, bindings: seq<Value>, depth: nat, index: Word32, d: Draft)
    ensures var p := RunClause(c, PartsOf(env), bindings, depth, index, d);
            p.result.Ok? ==> p.units == ClauseBill(c, env, bindings)
    decreases c, 0
  {
    var parts := PartsOf(env);
    hide PartsOf, Taken, MaybeCost, LineBill, PassesBill, RunItems, Elements, Means;
    GuardsSpend(c.guard, env, bindings);
    var taken := Taken(c.guard, parts, bindings).result;
    if depth <= MAX_CLAUSE_DEPTH && taken.Ok? && taken.value {
      var entered := d.(preorder := SaturatingAdd32(d.preorder, 1),
                        taken := if depth == 0 then d.taken + [taken.value] else d.taken);
      if c.ForEach? {
        ListsSpend(c, env, bindings);
        var items := parts.items(c.list, bindings).result;
        if items.Ok? {
          PassesSpend(items.value, c.body, env, bindings, depth, index, entered.preorder, entered);
        }
      } else {
        LinesSpend(c, env, bindings, depth, index, d.preorder, entered);
        hide Declare;
      }
    }
  }

  lemma {:induction false} PassesSpend(items: seq<Value>, body: seq<Clause>, env: Inputs, bindings: seq<Value>,
                                       depth: nat, index: Word32, start: Word32, d: Draft)
    ensures var p := RunItems(items, body, PartsOf(env), bindings, depth, index, start, d);
            p.result.Ok? ==> p.units == PassesBill(items, body, env, bindings)
    decreases body, 1, |items|
  {
    hide PartsOf, RunBody, BodyBill;
    if items != [] && Charged(d).Ok? {
      var begun := Charged(d).value.(preorder := start, passes := d.passes + 1);
      var pass := RunBody(body, PartsOf(env), bindings + [items[0]], depth + 1, index, begun);
      BodiesSpend(body, env, bindings + [items[0]], depth + 1, index, begun);
      if pass.result.Ok? {
        PassesSpend(items[1..], body, env, bindings, depth, index, start, pass.result.value.draft);
      }
    }
  }

  lemma {:induction false} BodiesSpend(
    body: seq<Clause>, env: Inputs, bindings: seq<Value>, depth: nat, index: Word32, d: Draft)
    ensures var p := RunBody(body, PartsOf(env), bindings, depth, index, d);
            p.result.Ok? ==> p.units == BodyBill(body, env, bindings)
    decreases body, 0
  {
    hide PartsOf, RunClause, ClauseBill;
    if body != [] {
      ClausesSpend(body[0], env, bindings, depth, index, d);
      var next := RunClause(body[0], PartsOf(env), bindings, depth, index, d);
      if next.result.Ok? {
        BodiesSpend(body[1..], env, bindings, depth, index, next.result.value);
      }
    }
  }

  lemma {:induction false} RunsSpend(clauses: seq<Clause>, n: nat, env: Inputs, d: Draft, spans: seq<Span>)
    ensures var p := RunFrom(clauses, n, PartsOf(env), d, spans);
            p.result.Ok? ==> p.units == BodyBill(clauses, env, [])
    decreases |clauses|
  {
    hide PartsOf, RunClause, ClauseBill;
    if clauses != [] {
      if n <= MAX_WORD32 {
        ClausesSpend(clauses[0], env, [], 0, n, d);
      }
      var next := Bracketed(clauses[0], n, PartsOf(env), d, spans);
      if next.result.Ok? {
        RunsSpend(clauses[1..], n + 1, env, next.result.value.draft, next.result.value.spans);
      }
    }
  }

  /** A declaration that evaluates spends the price of every expression it reads, guard by guard, line
      by line and element by element, and nothing else. */
  lemma {:induction false} DeclarationsSpendTheirBill(clauses: seq<Clause>, env: Inputs)
    ensures var p := Declares(clauses, PartsOf(env));
            p.result.Ok? ==> p.units == BodyBill(clauses, env, [])
  {
    RunsSpend(clauses, 0, env, BLANK, []);
  }
}
