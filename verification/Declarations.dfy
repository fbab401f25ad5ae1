/** A declaration told by what its expressions answer: which lines fire, and what each one makes. */
module Declarations {
  import opened Vocabulary
  import opened Syntax
  import opened EffectSets
  import opened Evaluation
  import opened Clauses
  import opened Firings
  import opened Targets
  import opened Views
  import opened Alignment
  import opened Readings

  // ----------------------------------------------------------------------------- guards

  /** A guard holds where there is none, or its expression answers true. */
  predicate Holds(guard: Option<Expr>, env: Inputs, bindings: seq<Value>) {
    guard.None? || Told(guard.value, env, bindings) == Some(VBool(true))
  }

  lemma {:induction false} GuardsTell(guard: Option<Expr>, env: Inputs, bindings: seq<Value>)
    ensures Taken(guard, PartsOf(env), bindings).result == Ok(true) <==> Holds(guard, env, bindings)
    ensures Taken(guard, PartsOf(env), bindings).result == Ok(false) <==>
            guard.Some? && Told(guard.value, env, bindings) == Some(VBool(false))
  {
    hide Eval;
  }

  /** A clause is taken exactly where its guard's expression answers true. */
  lemma {:induction false} VerdictsAreGuards(clauses: seq<Clause>, env: Inputs, d: Declaration, i: nat)
    requires Declares(clauses, PartsOf(env)).result == Ok(d) && i < |clauses|
    ensures |d.draft.taken| == |clauses|
    ensures d.draft.taken[i] <==> Holds(clauses[i].guard, env, [])
  {
    hide Declares, PartsOf, Holds;
    DeclarationsAlign(clauses, PartsOf(env));
    assert ClauseAligned(clauses, PartsOf(env), i, d.draft, d.spans);
    GuardsTell(clauses[i].guard, env, []);
  }

  /** `f` is a line of clause `c`, at its own number, reached over elements its loops map, every
      guard on the way holding where it is met. */
  ghost predicate Reaches(c: Clause, env: Inputs, bindings: seq<Value>, at: nat, f: Firing)
    decreases c, 1
  {
    && Holds(c.guard, env, bindings)
    && if !c.ForEach? then f == Firing(at, c, bindings)
       else exists item :: Maps(c.list, env, bindings, item) && ReachesIn(c.body, env, bindings + [item], at + 1, f)
  }

  predicate Maps(list: Expr, env: Inputs, bindings: seq<Value>, item: Value) {
    var items := Told(list, env, bindings);
    items.Some? && items.value.VList? && item in items.value.elements
  }

  ghost predicate ReachesIn(body: seq<Clause>, env: Inputs, bindings: seq<Value>, at: nat, f: Firing)
    decreases body, 0
  {
    exists site :: 0 <= site < |body| && Reaches(body[site], env, bindings, at + LineIn(body, site), f)
  }

  lemma {:induction false} ReachesFirst(body: seq<Clause>, env: Inputs, bindings: seq<Value>, at: nat, f: Firing)
    requires body != []
    ensures ReachesIn(body, env, bindings, at, f) <==>
            || Reaches(body[0], env, bindings, at, f)
            || ReachesIn(body[1..], env, bindings, at + |LinesOf(body[0])|, f)
  {
    hide Reaches, LineIn, LinesOf;
    FirstLine(body);
    var rest, next := body[1..], at + |LinesOf(body[0])|;
    if site :| 0 <= site < |body| && Reaches(body[site], env, bindings, at + LineIn(body, site), f) {
      if site > 0 {
        ReachedBelow(body, env, bindings, at, f, site - 1);
        assert ReachesIn(rest, env, bindings, next, f);
      }
    }
    if site :| 0 <= site < |rest| && Reaches(rest[site], env, bindings, next + LineIn(rest, site), f) {
      ReachedBelow(body, env, bindings, at, f, site);
      assert ReachesIn(body, env, bindings, at, f);
    }
  }

  lemma {:induction false} FirstLine(body: seq<Clause>)
    ensures LineIn(body, 0) == 0
  {
    assert body[..0] == [];
  }

  lemma {:induction false} ReachedBelow(
      body: seq<Clause>, env: Inputs, bindings: seq<Value>, at: nat, f: Firing, site: nat)
    requires site + 1 < |body|
    ensures Reaches(body[site + 1], env, bindings, at + LineIn(body, site + 1), f) <==>
            Reaches(body[1..][site], env, bindings, at + |LinesOf(body[0])| + LineIn(body[1..], site), f)
  {
    hide Reaches, LineIn, LinesOf;
    LineInTail(body, site + 1);
    assert body[1..][site] == body[site + 1];
  }

  /** The lines that fire are exactly the lines that are reached. */
  lemma {:induction false} FiringsAreReached(c: Clause, env: Inputs, bindings: seq<Value>, at: nat, f: Firing)
    requires FiringsOf(c, PartsOf(env), bindings, at).Ok?
    ensures f in FiringsOf(c, PartsOf(env), bindings, at).value <==> Reaches(c, env, bindings, at, f)
    decreases c, 1
  {
    hide PartsOf, Holds, Maps;
    GuardsTell(c.guard, env, bindings);
    if c.ForEach? && Taken(c.guard, PartsOf(env), bindings).result == Ok(true) {
      var items := PartsOf(env).items(c.list, bindings).result.value;
      MappedItems(c.list, env, bindings, items);
      LoopsAreReached(items, c.body, env, bindings, at + 1, f);
    }
  }

  lemma {:induction false} MappedItems(list: Expr, env: Inputs, bindings: seq<Value>, items: seq<Value>)
    requires PartsOf(env).items(list, bindings).result == Ok(items)
    ensures forall item :: Maps(list, env, bindings, item) <==> item in items
  {
    hide Eval;
    ItemsTell(list, env, bindings, items);
  }

  lemma {:induction false} LoopsAreReached(
      items: seq<Value>, body: seq<Clause>, env: Inputs, bindings: seq<Value>, at: nat, f: Firing)
    requires FiringsOver(items, body, PartsOf(env), bindings, at).Ok?
    ensures f in FiringsOver(items, body, PartsOf(env), bindings, at).value <==>
            exists item <- items :: ReachesIn(body, env, bindings + [item], at, f)
    decreases body, 1, |items|
  {
    hide PartsOf, ReachesIn;
    if items != [] {
      BodiesAreReached(body, env, bindings + [items[0]], at, f);
      LoopsAreReached(items[1..], body, env, bindings, at, f);
      assert items == [items[0]] + items[1..];
    }
  }

  lemma {:induction false} BodiesAreReached(body: seq<Clause>, env: Inputs, bindings: seq<Value>, at: nat, f: Firing)
    requires FiringsIn(body, PartsOf(env), bindings, at).Ok?
    ensures f in FiringsIn(body, PartsOf(env), bindings, at).value <==> ReachesIn(body, env, bindings, at, f)
    decreases body, 0
  {
    hide PartsOf, Reaches;
    if body != [] {
      hide ReachesIn;
      FiringsAreReached(body[0], env, bindings, at, f);
      BodiesAreReached(body[1..], env, bindings, at + |LinesOf(body[0])|, f);
      ReachesFirst(body, env, bindings, at, f);
    }
  }

  // ----------------------------------------------------------------- what each line makes

  /** What a firing makes: for an access, of what its expressions tell, under its own line's
      number and as wide as its slot; for a requirement, its judged tree; for a proof, its claim
      and the badge an instance widens to. */
  ghost predicate TellsYield(env: Inputs, f: Firing, y: Yield) {
    match f.clause
    case Access(_, _, _, _, _) => y.conditions == [] && y.claims == [] && TellsAccess(env, f, y)
    case Requires(_, rule) =>
      && y.accesses == [] && y.entries == [] && y.claims == []
      && |y.conditions| == 1 && TellsRule(rule, env, f.bindings, y.conditions[0])
    case Proves(_, claim) =>
      && y.accesses == [] && y.entries == [] && y.conditions == []
      && y.claims != [] && TellsProven(claim, env, f.bindings, y.claims[0])
      && y.claims[1..] == if y.claims[0].instance.Some? then [Claim(y.claims[0].subject, None)] else []
    case ForEach(_, _, _) => y == NOTHING
  }

  ghost predicate TellsAccess(env: Inputs, f: Firing, y: Yield)
    requires f.clause.Access?
  {
    var line := f.clause;
    && |y.accesses| == |y.entries| == 1
    && var a, entry := y.accesses[0], y.entries[0];
    && TellsTarget(line.target, env, f.bindings, a.effect.target)
    && TellsMode(line.mode, env, f.bindings, a.effect.mode)
    && TellsHolds(line.denomination, env, f.bindings, a.holds)
    && TellsReach(line.reach, line.target, env, f.bindings, a.reach)
    && a.clause == Stamp(f.line)
    && entry.effect == a.effect && TellsWidth(line.target, env, entry.width)
  }

  lemma {:induction false} WidthsTell(target: TargetExpr, env: Inputs, width: Word32)
    ensures WidthOf(target, env) == width <==> TellsWidth(target, env, width)
  {}

  lemma {:induction false} AccessesTell(env: Inputs, f: Firing, y: Yield)
    requires f.clause.Access?
    ensures Made(PartsOf(env), f) == Ok(y) <==> TellsYield(env, f, y)
  {
    hide PartsOf, Made, TellsAccess;
    if Made(PartsOf(env), f) == Ok(y) {
      MadeAccessesTell(env, f, y);
    }
    if TellsYield(env, f, y) {
      ToldAccessesAreMade(env, f, y);
    }
  }

  lemma {:induction false} MadeAccessesTell(env: Inputs, f: Firing, y: Yield)
    requires f.clause.Access? && Made(PartsOf(env), f) == Ok(y)
    ensures y.conditions == [] && y.claims == [] && TellsAccess(env, f, y)
  {
    hide PartsOf, EvalTarget, EvalMode, EvalHolds, EvalReach, WidthOf, Made;
    hide TellsTarget, TellsMode, TellsHolds, TellsReach, TellsWidth;
    AccessMade(env, f);
    AccessParts(env, f, y.accesses[0].effect, y.accesses[0].holds, y.accesses[0].reach, y.entries[0].width);
  }

  lemma {:induction false} ToldAccessesAreMade(env: Inputs, f: Firing, y: Yield)
    requires f.clause.Access? && y.conditions == [] && y.claims == [] && TellsAccess(env, f, y)
    ensures Made(PartsOf(env), f) == Ok(y)
  {
    hide PartsOf, EvalTarget, EvalMode, EvalHolds, EvalReach, WidthOf, Made;
    hide TellsTarget, TellsMode, TellsHolds, TellsReach, TellsWidth;
    AccessMade(env, f);
    var a, entry := y.accesses[0], y.entries[0];
    AccessParts(env, f, a.effect, a.holds, a.reach, entry.width);
    assert y.accesses == [a] && y.entries == [entry];
  }

  /** An access is made of four verdicts and a width. */
  lemma {:induction false} AccessMade(env: Inputs, f: Firing)
    requires f.clause.Access?
    ensures var line := f.clause;
            var target, mode := EvalTarget(line.target, env, f.bindings).result,
                EvalMode(line.mode, env, f.bindings).result;
            var holds, reach := EvalHolds(line.denomination, env, f.bindings).result,
                EvalReach(line.reach, line.target, env, f.bindings).result;
            if target.Ok? && mode.Ok? && holds.Ok? && reach.Ok? then
              var effect := Effect(target.value, mode.value);
              Made(PartsOf(env), f) ==
              Ok(Yield([DeclaredAccess(effect, holds.value, reach.value, Stamp(f.line))],
                       [Bounded(effect, WidthOf(line.target, env))], [], []))
            else Made(PartsOf(env), f).Err?
  {
    hide Eval, EvalTarget, EvalMode, EvalHolds, EvalReach, WidthOf;
  }

  lemma {:induction false} AccessParts(
      env: Inputs, f: Firing, effect: Effect, holds: Option<ResourceAddr>, reach: Option<Reach>, width: Word32)
    requires f.clause.Access?
    ensures EvalTarget(f.clause.target, env, f.bindings).result == Ok(effect.target) <==>
            TellsTarget(f.clause.target, env, f.bindings, effect.target)
    ensures EvalMode(f.clause.mode, env, f.bindings).result == Ok(effect.mode) <==>
            TellsMode(f.clause.mode, env, f.bindings, effect.mode)
    ensures EvalHolds(f.clause.denomination, env, f.bindings).result == Ok(holds) <==>
            TellsHolds(f.clause.denomination, env, f.bindings, holds)
    ensures EvalReach(f.clause.reach, f.clause.target, env, f.bindings).result == Ok(reach) <==>
            TellsReach(f.clause.reach, f.clause.target, env, f.bindings, reach)
    ensures WidthOf(f.clause.target, env) == width <==> TellsWidth(f.clause.target, env, width)
  {
    hide EvalTarget, EvalMode, EvalHolds, EvalReach, WidthOf;
    hide TellsTarget, TellsMode, TellsHolds, TellsReach, TellsWidth;
    TargetsTell(f.clause.target, env, f.bindings, effect.target);
    ModesTell(f.clause.mode, env, f.bindings, effect.mode);
    HoldsTell(f.clause.denomination, env, f.bindings, holds);
    ReachesTell(f.clause.reach, f.clause.target, env, f.bindings, reach);
    WidthsTell(f.clause.target, env, width);
  }

  lemma {:induction false} ConditionsTell(env: Inputs, f: Firing, y: Yield)
    requires f.clause.Requires?
    ensures Made(PartsOf(env), f) == Ok(y) <==> TellsYield(env, f, y)
  {
    hide EvalCondition, TellsRule;
    var judged := EvalCondition(f.clause.rule, env, f.bindings).result;
    if judged.Ok? {
      RulesTell(f.clause.rule, env, f.bindings, judged.value);
    }
    if |y.conditions| == 1 {
      RulesTell(f.clause.rule, env, f.bindings, y.conditions[0]);
      assert y.conditions == [y.conditions[0]];
    }
  }

  lemma {:induction false} ClaimsProvenTell(env: Inputs, f: Firing, y: Yield)
    requires f.clause.Proves?
    ensures Made(PartsOf(env), f) == Ok(y) <==> TellsYield(env, f, y)
  {
    hide Eval, ProvenFrom, TellsProven;
    var e := f.clause.claim;
    var proven := ProvenFrom(e, Eval(e, env, f.bindings, 0)).result;
    if proven.Ok? {
      ProofsTell(e, env, f.bindings, proven.value);
      assert Proven([], proven.value)[0] == proven.value;
    }
    if y.claims != [] {
      ProofsTell(e, env, f.bindings, y.claims[0]);
      assert y.claims == [y.claims[0]] + y.claims[1..];
      assert Proven([], y.claims[0]) == [y.claims[0]] + Proven([], y.claims[0])[1..];
    }
  }

  /** A firing makes exactly what its line's expressions tell. */
  lemma {:induction false} FiringsTell(env: Inputs, f: Firing, y: Yield)
    ensures Made(PartsOf(env), f) == Ok(y) <==> TellsYield(env, f, y)
  {
    match f.clause
    case Access(_, _, _, _, _) => AccessesTell(env, f, y);
    case Requires(_, _) => ConditionsTell(env, f, y);
    case Proves(_, _) => ClaimsProvenTell(env, f, y);
    case ForEach(_, _, _) =>
      hide PartsOf;
  }

  lemma {:induction false} EachIsMade(parts: Parts, fs: seq<Firing>, i: nat)
    requires MadeAll(parts, fs).Ok? && i < |fs|
    ensures Made(parts, fs[i]).Ok?
    decreases i
  {
    hide Made;
    if i > 0 {
      EachIsMade(parts, fs[1..], i - 1);
    }
  }

  /** A declaration that evaluates, told by its expressions alone: its firings are exactly the
      lines reached, each makes what its own expressions tell, and the declaration is what they
      make, in order. */
  lemma {:induction false} DeclarationsTell(clauses: seq<Clause>, env: Inputs, d: Declaration)
    requires Declares(clauses, PartsOf(env)).result == Ok(d)
    ensures FiringsIn(clauses, PartsOf(env), [], 0).Ok?
    ensures var fs := FiringsIn(clauses, PartsOf(env), [], 0).value;
            && (forall f :: f in fs <==> ReachesIn(clauses, env, [], 0, f))
            && (forall i :: 0 <= i < |fs| ==>
                  Made(PartsOf(env), fs[i]).Ok? && TellsYield(env, fs[i], Made(PartsOf(env), fs[i]).value))
            && MadeAll(PartsOf(env), fs) ==
               Ok(Yield(d.draft.ordered, d.draft.entries, d.draft.conditions, d.draft.proves))
  {
    hide PartsOf, Declares, FiringsIn, MadeAll, Made, ReachesIn, TellsYield;
    DeclarationsAreTheirFirings(clauses, PartsOf(env), d);
    var fs := FiringsIn(clauses, PartsOf(env), [], 0).value;
    forall f ensures f in fs <==> ReachesIn(clauses, env, [], 0, f) {
      BodiesAreReached(clauses, env, [], 0, f);
    }
    forall i | 0 <= i < |fs|
      ensures Made(PartsOf(env), fs[i]).Ok? && TellsYield(env, fs[i], Made(PartsOf(env), fs[i]).value)
    {
      EachIsMade(PartsOf(env), fs, i);
      FiringsTell(env, fs[i], Made(PartsOf(env), fs[i]).value);
    }
  }
}
