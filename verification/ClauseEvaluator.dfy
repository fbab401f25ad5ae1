/** The clause evaluator as it runs: one declaration filled in place, two meters charged as it goes. */
module ClauseEvaluator {
  import opened Vocabulary
  import opened Syntax
  import opened EffectSets
  import opened Evaluation
  import opened Clauses
  import opened Targets
  import opened Metering
  import opened Evaluator
  import opened TargetEvaluator

  /** The declaration being filled, and the elements of the loops being mapped. */
  class Drafting {
    var bindings: seq<Value>
    var set_: EffectSet
    var ordered: seq<DeclaredAccess>
    var conditions: seq<Rule<JudgedLeaf>>
    var proves: seq<Claim>
    var taken: seq<bool>
    var expansions: map<Word32, Rows>
    var spans: seq<Span>
    /** Each access with its width, the loop iterations, and the claims proven. */
    ghost var entries: seq<Bounded>
    ghost var passes: nat
    ghost var proofs: nat

    constructor ()
      ensures bindings == [] && set_ == map[] && ordered == [] && conditions == [] && proves == []
      ensures taken == [] && expansions == map[] && spans == [] && entries == [] && passes == proofs == 0
    {
      bindings, set_, ordered, conditions, proves, taken, expansions, spans := [], map[], [], [], [], [], map[], [];
      entries, passes, proofs := [], 0, 0;
    }

    ghost function View(budget: Budget): Draft
      reads this, budget
    {
      Draft(set_, ordered, conditions, proves, taken, expansions, budget.preorder, budget.work, entries, passes, proofs)
    }
  }

  /** What a step leaves behind, as the verdict it reached. */
  ghost function Left<T>(r: Outcome<()>, left: T): Outcome<T> {
    if r.Ok? then Ok(left) else Err(r.error)
  }

  // ------------------------------------------------------------- a clause's own parts

  /** Whether a clause is taken: it carries no guard, or its guard holds. */
  method JudgeGuard(guard: Option<Expr>, env: Inputs, bindings: seq<Value>, budget: Budget) returns (r: Outcome<bool>)
    modifies budget`spent, budget`evaluated, budget.envelope`spent
    ensures Settles(old(budget.State()), Taken(guard, PartsOf(env), bindings), r, budget.State())
  {
    if guard.None? {
      return Ok(true);
    }
    r := EvalFlag(guard.value, env, bindings, 0, budget);
  }

  method PlaceAccess(target: TargetExpr, mode: ModeExpr, env: Inputs, bindings: seq<Value>, budget: Budget)
    returns (r: Outcome<Placed>)
    modifies budget`spent, budget`evaluated, budget.envelope`spent
    ensures Settles(old(budget.State()), PartsOf(env).placed(target, mode, bindings), r, budget.State())
  {
    r := ReadPlaced(target, mode, env, bindings, budget);
  }

  method BearAccess(
      target: TargetExpr, denomination: Option<Expr>, reach: Option<Behaviour>, env: Inputs, bindings: seq<Value>,
      budget: Budget)
    returns (r: Outcome<Borne>)
    modifies budget`spent, budget`evaluated, budget.envelope`spent
    ensures Settles(old(budget.State()), PartsOf(env).borne(target, denomination, reach, bindings), r, budget.State())
  {
    r := ReadBorne(target, denomination, reach, env, bindings, budget);
  }

  method JudgeCondition(rule: RuleExpr, env: Inputs, bindings: seq<Value>, budget: Budget)
    returns (r: Outcome<Rule<JudgedLeaf>>)
    modifies budget`spent, budget`evaluated, budget.envelope`spent
    ensures Settles(old(budget.State()), PartsOf(env).condition(rule, bindings), r, budget.State())
  {
    r := ReadCondition(rule, env, bindings, budget);
  }

  method JudgeClaim(claim: Expr, env: Inputs, bindings: seq<Value>, budget: Budget) returns (r: Outcome<Claim>)
    modifies budget`spent, budget`evaluated, budget.envelope`spent
    ensures Settles(old(budget.State()), PartsOf(env).claim(claim, bindings), r, budget.State())
  {
    r := ReadProven(claim, env, bindings, budget);
  }

  method ListItems(list: Expr, env: Inputs, bindings: seq<Value>, budget: Budget) returns (r: Outcome<seq<Value>>)
    modifies budget`spent, budget`evaluated, budget.envelope`spent
    ensures Settles(old(budget.State()), PartsOf(env).items(list, bindings), r, budget.State())
  {
    r := ReadItems(list, env, bindings, budget);
  }

  // ------------------------------------------------------- the clauses with no body

  method DeclareAccess(c: Clause, number: Word32, env: Inputs, out: Drafting, budget: Budget) returns (r: Outcome<()>)
    requires c.Access?
    modifies out`set_, out`ordered, out`entries, budget`work, budget`spent, budget`evaluated, budget.envelope`spent
    ensures Settles(old(budget.State()), old(RunAccess(c, PartsOf(env), out.bindings, number, out.View(budget))),
                    Left(r, out.View(budget)), budget.State())
  {
    hide PartsOf;
    var placed :- PlaceAccess(c.target, c.mode, env, out.bindings, budget);
    var _ :- budget.Charge();
    r := DeclarePlaced(c, placed, number, env, out, budget);
  }

  method DeclarePlaced(c: Clause, placed: Placed, number: Word32, env: Inputs, out: Drafting, budget: Budget)
    returns (r: Outcome<()>)
    requires c.Access?
    modifies out`set_, out`ordered, out`entries, budget`spent, budget`evaluated, budget.envelope`spent
    ensures Settles(old(budget.State()),
                    old(RunPlaced(c, placed, PartsOf(env), out.bindings, number, out.View(budget))),
                    Left(r, out.View(budget)), budget.State())
  {
    hide PartsOf;
    var borne :- BearAccess(c.target, c.denomination, c.reach, env, out.bindings, budget);
    var effect := Effect(placed.target, placed.mode);
    var inserted := Insert(out.set_, Bounded(effect, placed.width));
    if inserted.Err? {
      return Err(EvalError.ReserveOverflow);
    }
    out.set_ := inserted.value;
    out.ordered := out.ordered + [DeclaredAccess(effect, borne.holds, borne.reach, number)];
    out.entries := out.entries + [Bounded(effect, placed.width)];
    r := Ok(());
  }

  method DeclareRequires(c: Clause, env: Inputs, out: Drafting, budget: Budget) returns (r: Outcome<()>)
    requires c.Requires?
    modifies out`conditions, budget`work, budget`spent, budget`evaluated, budget.envelope`spent
    ensures Settles(old(budget.State()), old(RunRequires(c, PartsOf(env), out.bindings, out.View(budget))),
                    Left(r, out.View(budget)), budget.State())
  {
    hide PartsOf;
    var _ :- budget.Charge();
    var judged :- JudgeCondition(c.rule, env, out.bindings, budget);
    out.conditions := out.conditions + [judged];
    r := Ok(());
  }

  method DeclareProves(c: Clause, env: Inputs, out: Drafting, budget: Budget) returns (r: Outcome<()>)
    requires c.Proves?
    modifies out`proves, out`proofs, budget`work, budget`spent, budget`evaluated, budget.envelope`spent
    ensures Settles(old(budget.State()), old(RunProves(c, PartsOf(env), out.bindings, out.View(budget))),
                    Left(r, out.View(budget)), budget.State())
  {
    hide PartsOf;
    var _ :- budget.Charge();
    var claim :- JudgeClaim(c.claim, env, out.bindings, budget);
    out.proves := out.proves + [claim];
    if claim.Widened().Some? {
      out.proves := out.proves + [claim.Widened().value];
    }
    if |out.proves| > MAX_PROVEN_PER_SIGNATURE {
      return Err(ProvesPastCap);
    }
    out.proofs := out.proofs + 1;
    r := Ok(());
  }

  // ------------------------------------------------------------------- whole clauses

  /** One clause: its number is taken and the walk moved on before its guard is read. */
  method EvalClause(c: Clause, env: Inputs, out: Drafting, budget: Budget) returns (r: Outcome<()>)
    modifies out, budget, budget.envelope`spent
    ensures budget.clause == old(budget.clause) && out.bindings == old(out.bindings) && out.spans == old(out.spans)
    ensures r.Ok? ==> budget.clauseDepth == old(budget.clauseDepth)
    ensures Settles(old(budget.State()),
                    old(RunClause(c, PartsOf(env), out.bindings, budget.clauseDepth, budget.clause, out.View(budget))),
                    Left(r, out.View(budget)), budget.State())
    decreases c, 3
  {
    hide PartsOf, RunClause, Entered;
    RunClauseEnters(c, PartsOf(env), out.bindings, budget.clauseDepth, budget.clause, out.View(budget));
    if budget.clauseDepth > MAX_CLAUSE_DEPTH {
      return Err(ClausesTooDeep);
    }
    var number := budget.preorder;
    budget.preorder := SaturatingAdd32(number, 1);
    var taken :- JudgeGuard(c.guard, env, out.bindings, budget);
    r := EnterClause(c, taken, number, env, out, budget);
  }

  /** What a clause does once its guard is judged. */
  ghost function Entered(c: Clause, taken: bool, parts: Parts, bindings: seq<Value>, depth: nat, index: Word32,
                         number: Word32, d: Draft): Priced<Draft>
  {
    var entered := d.(taken := if depth == 0 then d.taken + [taken] else d.taken);
    if !taken then Priced(Ok(Skipped(c, depth, index, entered)), 0)
    else Declare(c, parts, bindings, depth, index, number, entered)
  }

  lemma {:induction false} RunClauseEnters(
      c: Clause, parts: Parts, bindings: seq<Value>, depth: nat, index: Word32, d: Draft)
    ensures var guard := Taken(c.guard, parts, bindings);
            RunClause(c, parts, bindings, depth, index, d) ==
            if depth > MAX_CLAUSE_DEPTH then Priced(Err(ClausesTooDeep), 0)
            else if guard.result.Err? then Priced(Err(guard.result.error), guard.units)
            else Entered(c, guard.result.value, parts, bindings, depth, index, d.preorder,
                         d.(preorder := SaturatingAdd32(d.preorder, 1))).Plus(guard.units)
  {}

  method EnterClause(c: Clause, taken: bool, number: Word32, env: Inputs, out: Drafting, budget: Budget)
    returns (r: Outcome<()>)
    modifies out, budget, budget.envelope`spent
    ensures budget.clause == old(budget.clause) && out.bindings == old(out.bindings) && out.spans == old(out.spans)
    ensures r.Ok? ==> budget.clauseDepth == old(budget.clauseDepth)
    ensures Settles(old(budget.State()),
                    old(Entered(c, taken, PartsOf(env), out.bindings, budget.clauseDepth, budget.clause, number,
                                out.View(budget))),
                    Left(r, out.View(budget)), budget.State())
    decreases c, 2
  {
    hide PartsOf, Declare;
    if budget.clauseDepth == 0 {
      out.taken := out.taken + [taken];
    }
    if taken {
      r := DeclareClause(c, number, env, out, budget);
      return;
    }
    if c.ForEach? {
      budget.preorder := SaturatingAdd32(budget.preorder, PreorderLen(c.body));
      if budget.clauseDepth == 0 {
        out.expansions := out.expansions[budget.clause := seq(|c.body|, _ => [])];
      }
    }
    r := Ok(());
  }

  lemma {:induction false} DeclareByKind(
    c: Clause, number: Word32, parts: Parts, bindings: seq<Value>, depth: nat, index: Word32, d: Draft)
    ensures Declare(c, parts, bindings, depth, index, number, d) ==
            match c
            case Access(_, _, _, _, _) => RunAccess(c, parts, bindings, number, d)
            case Requires(_, _) => RunRequires(c, parts, bindings, d)
            case Proves(_, _) => RunProves(c, parts, bindings, d)
            case ForEach(_, list, body) => Looped(list, body, parts, bindings, depth, index, d)
  {}

  method DeclareClause(c: Clause, number: Word32, env: Inputs, out: Drafting, budget: Budget) returns (r: Outcome<()>)
    modifies out, budget, budget.envelope`spent
    ensures budget.clause == old(budget.clause) && out.bindings == old(out.bindings) && out.spans == old(out.spans)
    ensures r.Ok? ==> budget.clauseDepth == old(budget.clauseDepth)
    ensures Settles(old(budget.State()),
                    old(Declare(c, PartsOf(env), out.bindings, budget.clauseDepth, budget.clause, number,
                                out.View(budget))),
                    Left(r, out.View(budget)), budget.State())
    decreases c, 1
  {
    hide PartsOf, Declare, Looped, RunAccess, RunRequires, RunProves;
    DeclareByKind(c, number, PartsOf(env), out.bindings, budget.clauseDepth, budget.clause, out.View(budget));
    match c
    case Access(_, _, _, _, _) => r := DeclareAccess(c, number, env, out, budget);
    case Requires(_, _) => r := DeclareRequires(c, env, out, budget);
    case Proves(_, _) => r := DeclareProves(c, env, out, budget);
    case ForEach(_, _, _) => r := DeclareLoop(c, env, out, budget);
  }

  // --------------------------------------------------------------------------- loops

  /** A body's verdict with the clauses already walked, and paid for, in front of it. */
  ghost function Passed(landed: seq<Option<Word32>>, units: nat, rest: Priced<Pass>): Priced<Pass> {
    if rest.result.Ok? then Priced(Ok(Pass(rest.result.value.draft, landed + rest.result.value.landed)),
                                   units + rest.units)
    else rest.Plus(units)
  }

  lemma {:induction false} PassesNone(rest: Priced<Pass>)
    ensures Passed([], 0, rest) == rest
  {
    if rest.result.Ok? {
      assert [] + rest.result.value.landed == rest.result.value.landed;
    }
  }

  lemma {:induction false} PassesOne(
      body: seq<Clause>, site: nat, parts: Parts, bindings: seq<Value>, depth: nat, index: Word32,
                                     d: Draft, landed: seq<Option<Word32>>, units: nat)
    requires site < |body|
    ensures var first := RunClause(body[site], parts, bindings, depth, index, d);
            Passed(landed, units, RunBody(body[site..], parts, bindings, depth, index, d)) ==
            if first.result.Err? then Priced(Err(first.result.error), units + first.units)
            else Passed(landed + [Landing(body[site], |d.ordered|, |first.result.value.ordered|)], units + first.units,
                        RunBody(body[site + 1..], parts, bindings, depth, index, first.result.value))
  {
    assert body[site..][0] == body[site] && body[site..][1..] == body[site + 1..];
    var first := RunClause(body[site], parts, bindings, depth, index, d);
    if first.result.Ok? {
      var rest := RunBody(body[site + 1..], parts, bindings, depth, index, first.result.value);
      if rest.result.Ok? {
        var at := Landing(body[site], |d.ordered|, |first.result.value.ordered|);
        assert landed + ([at] + rest.result.value.landed) == landed + [at] + rest.result.value.landed;
      }
    }
  }

  lemma {:induction false} PassesAll(body: seq<Clause>, parts: Parts, bindings: seq<Value>, depth: nat, index: Word32,
                                     d: Draft, landed: seq<Option<Word32>>, units: nat)
    ensures Passed(landed, units, RunBody(body[|body|..], parts, bindings, depth, index, d)) ==
            Priced(Ok(Pass(d, landed)), units)
  {
    assert landed + [] == landed;
  }

  /** One more element's landings at the end of each row. */
  ghost predicate Extended(
      body: seq<Clause>, rows: Option<Rows>, landed: seq<Option<Word32>>, site: nat, extended: Option<Rows>) {
    && rows.Some? == extended.Some?
    && (rows.Some? ==>
          && |rows.value| == |extended.value| == |body|
          && site <= |landed| && site <= |body|
          && (forall s :: 0 <= s < site ==> extended.value[s] == rows.value[s] + [landed[s]])
          && (forall s :: site <= s < |body| ==> extended.value[s] == rows.value[s]))
  }

  /** One element's pass over a body, noting where each of its clauses landed. */
  method EvalExpansion(body: seq<Clause>, rows: Option<Rows>, env: Inputs, out: Drafting, budget: Budget)
    returns (r: Outcome<()>, noted: Option<Rows>, ghost landed: seq<Option<Word32>>)
    requires rows.Some? ==> |rows.value| == |body|
    modifies out, budget, budget.envelope`spent
    ensures budget.clause == old(budget.clause) && out.bindings == old(out.bindings) && out.spans == old(out.spans)
    ensures r.Ok? ==> budget.clauseDepth == old(budget.clauseDepth)
    ensures r.Ok? ==> |landed| == |body| && Extended(body, rows, landed, |body|, noted)
    ensures Settles(old(budget.State()),
                    old(RunBody(body, PartsOf(env), out.bindings, budget.clauseDepth, budget.clause, out.View(budget))),
                    Left(r, Pass(out.View(budget), landed)), budget.State())
    decreases body, 0
  {
    hide PartsOf, RunClause, RunBody;
    landed, noted := [], rows;
    ghost var start, parts, bindings, depth, index := budget.State(), PartsOf(env), out.bindings, budget.clauseDepth,
        budget.clause;
    ghost var done: nat := 0;
    ghost var whole := RunBody(body, parts, bindings, depth, index, out.View(budget));
    assert body[0..] == body;
    PassesNone(whole);
    for site := 0 to |body|
      invariant budget.clause == index && out.bindings == bindings && out.spans == old(out.spans)
          && budget.clauseDepth == depth
      invariant |landed| == site && Extended(body, rows, landed, site, noted)
      invariant Settles(start, Priced(Ok(()), done), Ok(()), budget.State())
      invariant whole == Passed(landed, done, RunBody(body[site..], parts, bindings, depth, index, out.View(budget)))
    {
      ghost var first := RunClause(body[site], parts, bindings, depth, index, out.View(budget));
      PassesOne(body, site, parts, bindings, depth, index, out.View(budget), landed, done);
      var before := |out.ordered|;
      r := EvalClause(body[site], env, out, budget);
      if r.Err? {
        return;
      }
      var at := Landing(body[site], before, |out.ordered|);
      if noted.Some? {
        noted := Some(noted.value[site := noted.value[site] + [at]]);
      }
      landed := landed + [at];
      done := done + first.units;
    }
    PassesAll(body, parts, bindings, depth, index, out.View(budget), landed, done);
    r := Ok(());
  }

  /** A loop's verdict with the elements already mapped, and paid for, in front of it. */
  ghost function Mapped(landings: seq<seq<Option<Word32>>>, units: nat, rest: Priced<Loop>): Priced<Loop> {
    if rest.result.Ok? then Priced(Ok(Loop(rest.result.value.draft, landings + rest.result.value.landings)),
                                   units + rest.units)
    else rest.Plus(units)
  }

  lemma {:induction false} MapsNone(rest: Priced<Loop>)
    ensures Mapped([], 0, rest) == rest
  {
    if rest.result.Ok? {
      assert [] + rest.result.value.landings == rest.result.value.landings;
    }
  }

  /** One element: charged, bound innermost, and the body walked from its first line. */
  ghost function OnePass(item: Value, body: seq<Clause>, parts: Parts, bindings: seq<Value>, depth: nat, index: Word32,
                         start: Word32, d: Draft): Priced<Pass>
  {
    var (d, spent) :- Priced(Charged(d), 0);
    RunBody(body, parts, bindings + [item], depth + 1, index, d.(preorder := start, passes := d.passes + 1)).Plus(spent)
  }

  lemma {:induction false} MapsOne(
    items: seq<Value>, i: nat, body: seq<Clause>, parts: Parts, bindings: seq<Value>, depth: nat, index: Word32,
        start: Word32,
    d: Draft, landings: seq<seq<Option<Word32>>>, units: nat)
    requires i < |items|
    ensures var pass := OnePass(items[i], body, parts, bindings, depth, index, start, d);
            Mapped(landings, units, RunItems(items[i..], body, parts, bindings, depth, index, start, d)) ==
            if pass.result.Err? then Priced(Err(pass.result.error), units + pass.units)
            else Mapped(landings + [pass.result.value.landed], units + pass.units,
                        RunItems(items[i + 1..], body, parts, bindings, depth, index, start, pass.result.value.draft))
  {
    assert items[i..][0] == items[i] && items[i..][1..] == items[i + 1..];
    var pass := OnePass(items[i], body, parts, bindings, depth, index, start, d);
    if pass.result.Ok? {
      var rest := RunItems(items[i + 1..], body, parts, bindings, depth, index, start, pass.result.value.draft);
      if rest.result.Ok? {
        var landed := pass.result.value.landed;
        assert landings + ([landed] + rest.result.value.landings) == landings + [landed] + rest.result.value.landings;
      }
    }
  }

  lemma {:induction false} MapsAll(
    items: seq<Value>, body: seq<Clause>, parts: Parts, bindings: seq<Value>, depth: nat, index: Word32, start: Word32,
    d: Draft, landings: seq<seq<Option<Word32>>>, units: nat)
    ensures Mapped(landings, units, RunItems(items[|items|..], body, parts, bindings, depth, index, start, d)) ==
            Priced(Ok(Loop(d, landings)), units)
  {
    assert landings + [] == landings;
  }

  /** The rows hold exactly the landings of the elements mapped so far. */
  ghost predicate RowsHold(body: seq<Clause>, landings: seq<seq<Option<Word32>>>, rows: Option<Rows>) {
    && (forall k :: 0 <= k < |landings| ==> |landings[k]| == |body|)
    && (rows.Some? ==> rows.value == Rowed(body, landings))
  }

  lemma {:induction false} RowsGrow(
    body: seq<Clause>, landings: seq<seq<Option<Word32>>>, rows: Option<Rows>, landed: seq<Option<Word32>>,
        noted: Option<Rows>)
    requires RowsHold(body, landings, rows) && |landed| == |body| && Extended(body, rows, landed, |body|, noted)
    ensures RowsHold(body, landings + [landed], noted)
  {
    if rows.Some? {
      var next := Rowed(body, landings + [landed]);
      forall site | 0 <= site < |body| ensures noted.value[site] == next[site] {
        assert noted.value[site] == Rowed(body, landings)[site] + [landed[site]];
      }
    }
  }

  /** One element's pass: the element is bound for the pass and unbound whatever came of it. */
  method MapOne(item: Value, body: seq<Clause>, rows: Option<Rows>, bodyLines: Word32, ghost depth: nat,
                env: Inputs, out: Drafting, budget: Budget)
    returns (r: Outcome<()>, noted: Option<Rows>, ghost landed: seq<Option<Word32>>)
    requires budget.clauseDepth == depth + 1
    requires rows.Some? ==> |rows.value| == |body|
    modifies out, budget, budget.envelope`spent
    ensures budget.clause == old(budget.clause) && out.bindings == old(out.bindings) && out.spans == old(out.spans)
    ensures r.Ok? ==> budget.clauseDepth == old(budget.clauseDepth)
    ensures r.Ok? ==> |landed| == |body| && Extended(body, rows, landed, |body|, noted)
    ensures Settles(old(budget.State()),
                    old(OnePass(item, body, PartsOf(env), out.bindings, depth, budget.clause, bodyLines,
                                out.View(budget))),
                    Left(r, Pass(out.View(budget), landed)), budget.State())
    decreases body, 2
  {
    hide PartsOf, RunBody, Extended;
    landed, noted := [], rows;
    r := budget.Charge();
    if r.Err? {
      return;
    }
    budget.preorder := bodyLines;
    out.passes := out.passes + 1;
    r, noted, landed := BindOne(item, body, rows, env, out, budget);
  }

  /** A pass with one more element bound innermost, unbound again whatever came of it. */
  method BindOne(item: Value, body: seq<Clause>, rows: Option<Rows>, env: Inputs, out: Drafting, budget: Budget)
    returns (r: Outcome<()>, noted: Option<Rows>, ghost landed: seq<Option<Word32>>)
    requires rows.Some? ==> |rows.value| == |body|
    modifies out, budget, budget.envelope`spent
    ensures budget.clause == old(budget.clause) && out.bindings == old(out.bindings) && out.spans == old(out.spans)
    ensures r.Ok? ==> budget.clauseDepth == old(budget.clauseDepth)
    ensures r.Ok? ==> |landed| == |body| && Extended(body, rows, landed, |body|, noted)
    ensures Settles(old(budget.State()),
                    old(RunBody(body, PartsOf(env), out.bindings + [item], budget.clauseDepth, budget.clause,
                                out.View(budget))),
                    Left(r, Pass(out.View(budget), landed)), budget.State())
    decreases body, 1
  {
    hide PartsOf, RunBody, Extended, Settles;
    ghost var outer := out.bindings;
    assert (outer + [item])[..|outer|] == outer;
    out.bindings := out.bindings + [item];
    r, noted, landed := EvalExpansion(body, rows, env, out, budget);
    out.bindings := out.bindings[..|out.bindings| - 1];
  }

  /** The body over each element, every pass restarting at the body's first line. */
  method MapItems(
      items: seq<Value>, body: seq<Clause>, rows: Option<Rows>, ghost depth: nat, env: Inputs, out: Drafting,
      budget: Budget)
    returns (r: Outcome<()>, noted: Option<Rows>, ghost landings: seq<seq<Option<Word32>>>)
    requires budget.clauseDepth == depth + 1
    requires RowsHold(body, [], rows)
    modifies out, budget, budget.envelope`spent
    ensures budget.clause == old(budget.clause) && out.bindings == old(out.bindings) && out.spans == old(out.spans)
    ensures r.Ok? ==> budget.clauseDepth == old(budget.clauseDepth)
    ensures r.Ok? ==> noted.Some? == rows.Some? && RowsHold(body, landings, noted)
    ensures Settles(old(budget.State()),
                    old(RunItems(items, body, PartsOf(env), out.bindings, depth, budget.clause, budget.preorder,
                                 out.View(budget))),
                    Left(r, Loop(out.View(budget), landings)), budget.State())
    decreases body, 3
  {
    hide PartsOf, OnePass, RunItems;
    landings, noted := [], rows;
    var bodyLines := budget.preorder;
    ghost var start, parts, bindings, index := budget.State(), PartsOf(env), out.bindings, budget.clause;
    ghost var done: nat := 0;
    ghost var whole := RunItems(items, body, parts, bindings, depth, index, bodyLines, out.View(budget));
    assert items[0..] == items;
    MapsNone(whole);
    for i := 0 to |items|
      invariant budget.clause == index && out.bindings == bindings && out.spans == old(out.spans)
          && budget.clauseDepth == depth + 1
      invariant noted.Some? == rows.Some? && RowsHold(body, landings, noted)
      invariant Settles(start, Priced(Ok(()), done), Ok(()), budget.State())
      invariant whole == Mapped(landings, done,
                                RunItems(items[i..], body, parts, bindings, depth, index, bodyLines, out.View(budget)))
    {
      MapsOne(items, i, body, parts, bindings, depth, index, bodyLines, out.View(budget), landings, done);
      ghost var pass := OnePass(items[i], body, parts, bindings, depth, index, bodyLines, out.View(budget));
      ghost var was := noted;
      ghost var landed;
      r, noted, landed := MapOne(items[i], body, noted, bodyLines, depth, env, out, budget);
      if r.Err? {
        return;
      }
      RowsGrow(body, landings, was, landed, noted);
      landings := landings + [landed];
      done := done + pass.units;
    }
    MapsAll(items, body, parts, bindings, depth, index, bodyLines, out.View(budget), landings, done);
    r := Ok(());
  }

  /** One loop: the collection, its body over each element, and its rows where a binding can name it. */
  method DeclareLoop(c: Clause, env: Inputs, out: Drafting, budget: Budget) returns (r: Outcome<()>)
    requires c.ForEach?
    modifies out, budget, budget.envelope`spent
    ensures budget.clause == old(budget.clause) && out.bindings == old(out.bindings) && out.spans == old(out.spans)
    ensures r.Ok? ==> budget.clauseDepth == old(budget.clauseDepth)
    ensures Settles(old(budget.State()),
                    old(Looped(c.list, c.body, PartsOf(env), out.bindings, budget.clauseDepth, budget.clause,
                               out.View(budget))),
                    Left(r, out.View(budget)), budget.State())
    decreases c, 0
  {
    hide PartsOf, RunItems;
    var items :- ListItems(c.list, env, out.bindings, budget);
    r := LoopOver(items, c.body, env, out, budget);
  }

  ghost function Looped(
      list: Expr, body: seq<Clause>, parts: Parts, bindings: seq<Value>, depth: nat, index: Word32, d: Draft)
    : Priced<Draft>
  {
    var (items, spent) :- parts.items(list, bindings);
    Filing(items, body, parts, bindings, depth, index, d).Plus(spent)
  }

  ghost function Filing(
      items: seq<Value>, body: seq<Clause>, parts: Parts, bindings: seq<Value>, depth: nat, index: Word32, d: Draft)
    : Priced<Draft>
  {
    var (loop, spent) :- RunItems(items, body, parts, bindings, depth, index, d.preorder, d);
    Priced(Ok(Filed(body, depth, index, d.preorder, loop)), spent)
  }

  method LoopOver(items: seq<Value>, body: seq<Clause>, env: Inputs, out: Drafting, budget: Budget)
    returns (r: Outcome<()>)
    modifies out, budget, budget.envelope`spent
    ensures budget.clause == old(budget.clause) && out.bindings == old(out.bindings) && out.spans == old(out.spans)
    ensures r.Ok? ==> budget.clauseDepth == old(budget.clauseDepth)
    ensures Settles(old(budget.State()),
                    old(Filing(items, body, PartsOf(env), out.bindings, budget.clauseDepth, budget.clause,
                               out.View(budget))),
                    Left(r, out.View(budget)), budget.State())
    decreases body, 4
  {
    hide PartsOf, RunItems;
    ghost var depth := budget.clauseDepth;
    var rows: Option<Rows> := if budget.clauseDepth == 0 then Some(Rowed(body, [])) else None;
    var bodyLines := budget.preorder;
    budget.clauseDepth := budget.clauseDepth + 1;
    ghost var landings;
    r, rows, landings := MapItems(items, body, rows, depth, env, out, budget);
    if r.Err? {
      return;
    }
    budget.clauseDepth := budget.clauseDepth - 1;
    budget.preorder := SaturatingAdd32(bodyLines, PreorderLen(body));
    if rows.Some? {
      out.expansions := out.expansions[budget.clause := rows.value];
    }
  }

  // ---------------------------------------------------------------------- signatures

  lemma {:induction false} RunsOne(clauses: seq<Clause>, i: nat, parts: Parts, d: Draft, spans: seq<Span>)
    requires i < |clauses|
    ensures var first := Bracketed(clauses[i], i, parts, d, spans);
            RunFrom(clauses[i..], i, parts, d, spans) ==
            if first.result.Err? then Priced(Err(first.result.error), first.units)
            else RunFrom(clauses[i + 1..], i + 1, parts, first.result.value.draft,
                         first.result.value.spans).Plus(first.units)
  {
    assert clauses[i..][0] == clauses[i] && clauses[i..][1..] == clauses[i + 1..];
  }

  /** One top-level clause, filed under its own index and its accesses bracketed. */
  method BracketClause(c: Clause, index: nat, env: Inputs, out: Drafting, budget: Budget) returns (r: Outcome<()>)
    requires budget.clauseDepth == 0 && out.bindings == []
    modifies out, budget, budget.envelope`spent
    ensures r.Ok? ==> budget.clauseDepth == 0 && out.bindings == []
    ensures Settles(old(budget.State()), old(Bracketed(c, index, PartsOf(env), out.View(budget), out.spans)),
                    Left(r, Declaration(out.View(budget), out.spans)), budget.State())
  {
    hide PartsOf, RunClause;
    if index > MAX_WORD32 {
      return Err(TooManyEffects);
    }
    var start := |out.ordered|;
    budget.clause := index;
    r := EvalClause(c, env, out, budget);
    if r.Err? {
      return;
    }
    if start > MAX_WORD32 || |out.ordered| < start || |out.ordered| - start > MAX_WORD32 {
      return Err(TooManyEffects);
    }
    out.spans := out.spans + [Span(start, |out.ordered| - start)];
  }

  /** Evaluate a signature to every view of its declaration, on a fresh allowance of its own. */
  method EvaluateDeclaration(clauses: seq<Clause>, env: Inputs, envelope: EvalBudget)
    returns (r: Outcome<()>, out: Drafting, budget: Budget)
    modifies envelope`spent
    ensures fresh(out) && fresh(budget) && budget.envelope == envelope && budget.ceiling == MAX_EVALUATION_WORK
    ensures Settles(Meter(Limits(MAX_EVALUATION_WORK, envelope.ceiling), 0, old(envelope.spent), 0),
                    Declares(clauses, PartsOf(env)),
                    Left(r, Declaration(out.View(budget), out.spans)), budget.State())
  {
    hide PartsOf, RunFrom, Bracketed;
    out := new Drafting();
    budget := new Budget(envelope);
    ghost var start, parts, done: nat := budget.State(), PartsOf(env), 0;
    assert clauses[0..] == clauses;
    for i := 0 to |clauses|
      invariant fresh(out) && fresh(budget) && budget.envelope == envelope && budget.ceiling == MAX_EVALUATION_WORK
      invariant budget.clauseDepth == 0 && out.bindings == []
      invariant Settles(start, Priced(Ok(()), done), Ok(()), budget.State())
      invariant Declares(clauses, parts) == RunFrom(clauses[i..], i, parts, out.View(budget), out.spans).Plus(done)
    {
      ghost var first := Bracketed(clauses[i], i, parts, out.View(budget), out.spans);
      RunsOne(clauses, i, parts, out.View(budget), out.spans);
      r := BracketClause(clauses[i], i, env, out, budget);
      if r.Err? {
        return;
      }
      done := done + first.units;
    }
    RunsNone(clauses, parts, out.View(budget), out.spans);
    r := Ok(());
  }

  lemma {:induction false} RunsNone(clauses: seq<Clause>, parts: Parts, d: Draft, spans: seq<Span>)
    ensures RunFrom(clauses[|clauses|..], |clauses|, parts, d, spans) == Priced(Ok(Declaration(d, spans)), 0)
  {}
}
