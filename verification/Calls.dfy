/** A whole call: what it evaluates over, and everything a declaration that evaluates is. */
module Calls {
  import opened Vocabulary
  import opened Syntax
  import Grants
  import Identity
  import Laws
  import opened Evaluation
  import opened Clauses
  import opened Targets
  import opened Meaning
  import opened Spending
  import opened Acceptance
  import opened Metering
  import opened Evaluator
  import opened Views
  import opened Alignment
  import opened ClauseEvaluator

  /** The instance called, as its committed record tells it: its configuration and, where the
      record is whole, the leaf the record is. */
  datatype Callee = Callee(self: CallTarget, config: seq<Value>, leaf: Option<Bytes>, widths: Word16 -> Word32)

  /** What a resource this callee issues is addressed as, once its granted rules resolve. */
  function IssuedBy(callee: Callee, seam: Seam, kind: ResourceKind, material: seq<Bytes>, grants: GrantsExpr)
    : Result<ResourceAddr, GrantsError>
  {
    var rules :- Grants.Resolve(grants, Grants.Issuer(seam, callee.self, callee.config));
    Ok(Grants.ResourceAddressOf(seam, callee.self, kind, rules, material))
  }

  /** What one call's signature is evaluated over. */
  function InputsFor(callee: Callee, args: seq<Value>, node: Word32, identity: Bytes, seam: Seam): Inputs {
    Inputs(callee.self, args, callee.config, callee.leaf, node, identity, callee.widths,
           (kind, material, grants) => IssuedBy(callee, seam, kind, material, grants), seam)
  }

  /** A call reads what it was made with: its own arguments, the callee's configuration, address and
      record, and draws of its own identity and node. */
  lemma {:induction false} CallsReadWhatTheyAreMadeWith(
    callee: Callee, args: seq<Value>, node: Word32, identity: Bytes, seam: Seam,
    index: Word32, bindings: seq<Value>, depth: nat)
    requires depth <= MAX_EXPR_DEPTH
    ensures var env := InputsFor(callee, args, node, identity, seam);
            && Says(Arg(index), env, bindings, depth) == (if index < |args| then Some(args[index]) else None)
            && Says(Config(index), env, bindings, depth) ==
               (if index < |callee.config| then Some(callee.config[index]) else None)
            && Says(SelfAddr, env, bindings, depth) == Some(VAddress(callee.self))
            && Says(SelfRecord, env, bindings, depth) ==
               (if callee.leaf.Some? then Some(VBytes(callee.leaf.value)) else None)
            && Says(FreshKey(index), env, bindings, depth) ==
               Some(VKey(SubstateKey(callee.self, seam.hash(FreshDomain, [identity, Le32(node), Le32(index)]))))
            && Says(FreshId(index), env, bindings, depth) ==
               Some(VU64(FromLe8(Seam.Lead(seam.hash(FreshDomain, [identity, Le32(node), Le32(index)]), 8))))
  {
    var env := InputsFor(callee, args, node, identity, seam);
    hide Says, FromLe8, Seam.Lead, Le32;
    Laws.HandedTermsSay(Arg(index), env, bindings, depth);
    Laws.HandedTermsSay(Config(index), env, bindings, depth);
    Laws.DrawnTermsSay(SelfAddr, env, bindings, depth);
    Laws.DrawnTermsSay(SelfRecord, env, bindings, depth);
    Laws.DrawnTermsSay(FreshKey(index), env, bindings, depth);
    Laws.DrawnTermsSay(FreshId(index), env, bindings, depth);
  }

  /** An issued resource's address says, by its class alone, whether the declaration restricts
      how the resource moves; and a declaration whose grants do not resolve issues nothing. */
  lemma {:induction false} IssuedClassTellsMovement(
    callee: Callee, args: seq<Value>, node: Word32, identity: Bytes, seam: Seam,
    kind: ResourceKind, material: seq<Expr>, grants: GrantsExpr, bindings: seq<Value>, depth: nat)
    ensures var answered := Eval(SelfResource(kind, material, grants), InputsFor(callee, args, node, identity, seam),
                                 bindings, depth).result;
            answered.Ok? ==>
              && Grants.Resolve(grants, Grants.Issuer(seam, callee.self, callee.config)).Ok?
              && answered.value.value.VAddress?
              && answered.value.value.address.IsResource()
              && (answered.value.value.address.class_ == Restricted <==>
                    exists entry <- grants :: entry.behaviour in {Withdraw, Deposit, Halt})
  {
    hide EvalMaterial, InputsFor, Grants.Resolve, Grants.ResourceAddressOf, Grants.RestrictsMovement;
    var env := InputsFor(callee, args, node, identity, seam);
    var e := SelfResource(kind, material, grants);
    var answered := Eval(e, env, bindings, depth).result;
    if answered.Ok? {
      var built := IssuedFrom(env, kind, EvalMaterial(material, env, bindings, depth + 1), grants);
      assert Build(e, env, bindings, depth + 1) == built;
      assert Answered(e, env, bindings, depth + 1) == Owned(built);
      var parts := EvalMaterial(material, env, bindings, depth + 1).result.value;
      IssuesThroughGrants(callee, args, node, identity, seam, kind, parts, grants);
      Grants.ClassFollowsTheDeclaration(grants, Grants.Issuer(seam, callee.self, callee.config), kind, parts);
    }
  }

  /** A badge named in a granted rule is the badge its issuer issues: the resource addressed
      under the badge's mark, kind and own rules. */
  lemma {:induction false} BadgesNamedAreIssued(
    callee: Callee, args: seq<Value>, node: Word32, identity: Bytes, seam: Seam,
    kind: ResourceKind, mark: Bytes, grants: GrantsExpr, bindings: seq<Value>, depth: nat)
    requires depth < MAX_EXPR_DEPTH
    requires Grants.SelfBadge(kind, mark, grants, Grants.Issuer(seam, callee.self, callee.config), 0).Ok?
    ensures Says(SelfResource(kind, [Literal(VBytes(mark))], grants), InputsFor(callee, args, node, identity, seam),
                 bindings, depth) ==
            Some(VAddress(
              Grants.SelfBadge(kind, mark, grants, Grants.Issuer(seam, callee.self, callee.config), 0).value))
  {
    hide Grants.ResolveLink, Grants.ResourceAddressOf, InputsFor, Means, Tall, Says;
    var env := InputsFor(callee, args, node, identity, seam);
    var material := [Literal(VBytes(mark))];
    var e := SelfResource(kind, material, grants);
    var scope := Inside(bindings);
    Grants.BadgeRulesResolveAlike(grants, Grants.Issuer(seam, callee.self, callee.config));
    AnswersAreMeanings(e, env, bindings, depth);
    LoneMaterial(kind, mark, grants, env, scope);
    IssuesThroughGrants(callee, args, node, identity, seam, kind, [seam.encode(VBytes(mark))], grants);
  }

  lemma {:induction false} LoneMaterial(
      kind: ResourceKind, mark: Bytes, grants: GrantsExpr, env: Inputs, scope: seq<Value>)
    ensures var e := SelfResource(kind, [Literal(VBytes(mark))], grants);
            var issued := env.issued(kind, [env.seam.encode(VBytes(mark))], grants);
            && Means(e, env, scope) == (if issued.Ok? then Some(VAddress(issued.value)) else None)
            && Tall(e, env, scope) == 2
  {
    var part := Literal(VBytes(mark));
    var material := [part];
    var e := SelfResource(kind, material, grants);
    NoneMeans(part, env, scope);
    assert material[0] == part && material[1..] == [];
    assert MeansAll([], env, scope) == Some([]);
    assert MeansAll(material, env, scope) == Some([VBytes(mark)] + []);
    assert [VBytes(mark)] + [] == [VBytes(mark)];
    assert Encodings(env, [VBytes(mark)]) == [env.seam.encode(VBytes(mark))];
    assert Consulted(e, env, scope) == material;
    ReadOne(part, e, env, scope);
  }

  /** An issued address is the hash of parts that tell its issuer, kind, rules and material apart. */
  lemma {:induction false} ResourcesAreTheirParts(
    seam: Seam, a: Address, k: ResourceKind, r: ResourceGrants, m: seq<Bytes>,
    b: Address, l: ResourceKind, s: ResourceGrants, n: seq<Bytes>)
    requires Identity.CollisionFree(seam.hash) && Identity.Injective(seam.encodeGrants)
    ensures Grants.ResourceParts(seam, a, k, r, m) == Grants.ResourceParts(seam, b, l, s, n) <==>
            a == b && k == l && r == s && m == n
    ensures Grants.ResourceAddressOf(seam, a, k, r, m).body ==
            Seam.Lead(seam.hash(ResourceDomain, Grants.ResourceParts(seam, a, k, r, m)), 31)
  {
    var p, q := Grants.ResourceParts(seam, a, k, r, m), Grants.ResourceParts(seam, b, l, s, n);
    if p == q {
      assert p[0] == q[0] && p[1] == q[1] && p[2] == q[2] && p[3..] == m && q[3..] == n;
      AddressBytesInjective(a, b);
      assert p[1][0] == k.Tag() && q[1][0] == l.Tag();
    }
  }

  lemma {:induction false} IssuesThroughGrants(
    callee: Callee, args: seq<Value>, node: Word32, identity: Bytes, seam: Seam,
    kind: ResourceKind, material: seq<Bytes>, grants: GrantsExpr)
    ensures InputsFor(callee, args, node, identity, seam).issued(kind, material, grants) ==
            IssuedBy(callee, seam, kind, material, grants)
    ensures InputsFor(callee, args, node, identity, seam).seam == seam
  {}

  /** Evaluate a call's signature. It evaluates exactly where it is acceptable and its bill fits both
      meters; and a declaration that evaluates is aligned in every view and within every cap, whatever
      its nesting: its accesses, conditions, proven claims and loop iterations total at most the clause
      bound, its subterms at most the work bound. */
  method EvaluateCall(clauses: seq<Clause>, env: Inputs, envelope: EvalBudget)
    returns (r: Outcome<()>, out: Drafting, budget: Budget)
    modifies envelope`spent
    ensures fresh(out) && fresh(budget)
    ensures r.Ok? <==>
            && Acceptable(clauses, PartsOf(env))
            && var bill := BodyBill(clauses, env, []);
            bill == 0 || (bill <= MAX_EVALUATION_WORK && old(envelope.spent) + bill <= envelope.ceiling)
    ensures r.Ok? ==> envelope.spent == old(envelope.spent) + BodyBill(clauses, env, [])
    ensures r.Ok? ==> Aligned(clauses, |clauses|, PartsOf(env), out.View(budget), out.spans)
    ensures r.Ok? ==> Sound(out.View(budget))
    ensures r.Ok? ==> |out.ordered| + |out.conditions| + out.proofs + out.passes <= MAX_EFFECTS_PER_SIGNATURE
    ensures r.Ok? ==> |out.proves| <= MAX_PROVEN_PER_SIGNATURE
    ensures r.Ok? ==> budget.evaluated <= budget.spent <= MAX_EVALUATION_WORK
  {
    hide PartsOf, Declares, Aligned, Acceptable, BodyBill;
    r, out, budget := EvaluateDeclaration(clauses, env, envelope);
    DeclarationsAlign(clauses, PartsOf(env));
    DeclarationsEvaluateExactly(clauses, PartsOf(env));
    DeclarationsSpendTheirBill(clauses, env);
  }

  /** What keeping an expression's value costs: its price, and a copy where the value is held in place. */
  function KeepingBill(e: Expr, env: Inputs): (n: nat)
    ensures n > 0
  {
    Price(e, env, []) + if InPlace(e, env, []) then Size(Means(e, env, [])) else 0
  }

  lemma {:induction false} KeptIsItsMeaning(e: Expr, env: Inputs)
    ensures var p := Kept(Eval(e, env, [], 0));
            && (p.result.Ok? <==> Means(e, env, []).Some? && Tall(e, env, []) <= 33)
            && (p.result.Ok? ==> Means(e, env, []) == Some(p.result.value) && p.units == KeepingBill(e, env))
  {
    hide Eval, Means, Tall, Price, InPlace, Walked;
    EvalFinds(e, env, [], 0);
    assert Inside([]) == [];
  }

  /** Evaluate one expression on a fresh allowance of its own, its value the caller's to keep: it
      answers exactly what it means, exactly where it means something, what it reads nests within the
      bound and both meters have room. */
  method EvaluateExpr(e: Expr, env: Inputs, envelope: EvalBudget) returns (r: Outcome<Value>, budget: Budget)
    modifies envelope`spent
    ensures fresh(budget) && budget.envelope == envelope && budget.ceiling == MAX_EVALUATION_WORK
    ensures Settles(Meter(Limits(MAX_EVALUATION_WORK, envelope.ceiling), 0, old(envelope.spent), 0),
                    Kept(Eval(e, env, [], 0)), r, budget.State())
    ensures r.Ok? <==> Means(e, env, []).Some? && Tall(e, env, []) <= 33
                       && KeepingBill(e, env) <= MAX_EVALUATION_WORK
                       && old(envelope.spent) + KeepingBill(e, env) <= envelope.ceiling
    ensures r.Ok? ==> Means(e, env, []) == Some(r.value)
    ensures r.Ok? ==> envelope.spent == old(envelope.spent) + KeepingBill(e, env)
  {
    hide Eval, Means, Tall, Price, InPlace, Walked;
    budget := new Budget(envelope);
    r := KeepOne(e, env, [], 0, budget);
    KeptIsItsMeaning(e, env);
  }
}
