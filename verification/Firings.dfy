/** Which lines a call fires, over which elements, and what each of them makes. */
module Firings {
  import opened Vocabulary
  import opened Syntax
  import opened EffectSets
  import opened Evaluation
  import opened Clauses
  import opened Numbering

  // -------------------------------------------------------------------- the lines that fire

  /** A line that fires: its number, and the element each loop around it had mapped. */
  datatype Firing = Firing(line: nat, clause: Clause, bindings: seq<Value>)

  /** The firings of a clause whose line is `at`: none where its guard does not hold, and
      a loop's are its body's over each of its elements in turn. */
  function FiringsOf(c: Clause, parts: Parts, bindings: seq<Value>, at: nat): Outcome<seq<Firing>>
    decreases c, 1
  {
    var taken :- Taken(c.guard, parts, bindings).result;
    if !taken then Ok([])
    else if !c.ForEach? then Ok([Firing(at, c, bindings)])
    else
      var items :- parts.items(c.list, bindings).result;
      FiringsOver(items, c.body, parts, bindings, at + 1)
  }

  function FiringsOver(items: seq<Value>, body: seq<Clause>, parts: Parts, bindings: seq<Value>, at: nat)
    : Outcome<seq<Firing>>
    decreases body, 1, |items|
  {
    if items == [] then Ok([])
    else
      var first :- FiringsIn(body, parts, bindings + [items[0]], at);
      var rest :- FiringsOver(items[1..], body, parts, bindings, at);
      Ok(first + rest)
  }

  /** The firings of a body whose first line is `at`. */
  function FiringsIn(body: seq<Clause>, parts: Parts, bindings: seq<Value>, at: nat): Outcome<seq<Firing>>
    decreases body, 0
  {
    if body == [] then Ok([])
    else
      var first :- FiringsOf(body[0], parts, bindings, at);
      var rest :- FiringsIn(body[1..], parts, bindings, at + |LinesOf(body[0])|);
      Ok(first + rest)
  }

  /** A firing names a line of `lines` by the number a listing from `at` gives it. */
  ghost predicate Names(lines: seq<Clause>, at: nat, f: Firing) {
    at <= f.line < at + |lines| && lines[f.line - at] == f.clause && !f.clause.ForEach?
  }

  ghost predicate NameLines(lines: seq<Clause>, at: nat, fs: Outcome<seq<Firing>>) {
    fs.Ok? ==> forall f <- fs.value :: Names(lines, at, f)
  }

  /** Every firing is of a line of the clause it came from. */
  lemma {:induction false} FiringsNameLines(c: Clause, parts: Parts, bindings: seq<Value>, at: nat)
    ensures NameLines(LinesOf(c), at, FiringsOf(c, parts, bindings, at))
    decreases c, 1
  {
    if c.ForEach? && parts.items(c.list, bindings).result.Ok? {
      var items := parts.items(c.list, bindings).result.value;
      FiringsOverNameLines(items, c.body, parts, bindings, at + 1);
    }
  }

  lemma {:induction false} FiringsOverNameLines(
      items: seq<Value>, body: seq<Clause>, parts: Parts, bindings: seq<Value>, at: nat)
    ensures NameLines(Lines(body), at, FiringsOver(items, body, parts, bindings, at))
    decreases body, 1, |items|
  {
    hide Names;
    if items != [] {
      FiringsInNameLines(body, parts, bindings + [items[0]], at);
      FiringsOverNameLines(items[1..], body, parts, bindings, at);
    }
  }

  lemma {:induction false} FiringsInNameLines(body: seq<Clause>, parts: Parts, bindings: seq<Value>, at: nat)
    ensures NameLines(Lines(body), at, FiringsIn(body, parts, bindings, at))
    decreases body, 0
  {
    if body != [] {
      FiringsNameLines(body[0], parts, bindings, at);
      FiringsInNameLines(body[1..], parts, bindings, at + |LinesOf(body[0])|);
    }
  }

  // ------------------------------------------------------------------- what firings make

  /** What lines make: accesses, each with the width of the leaves it reaches, conditions and
      claims, each in order. */
  datatype Yield = Yield(accesses: seq<DeclaredAccess>, entries: seq<Bounded>,
                         conditions: seq<Rule<JudgedLeaf>>, claims: seq<Claim>)
  {
    function Then(next: Yield): Yield {
      Yield(accesses + next.accesses, entries + next.entries, conditions + next.conditions, claims + next.claims)
    }
  }

  const NOTHING := Yield([], [], [], [])

  function Made(parts: Parts, f: Firing): Outcome<Yield> {
    match f.clause
    case Access(_, target, mode, denomination, reach) =>
      var placed :- parts.placed(target, mode, f.bindings).result;
      var borne :- parts.borne(target, denomination, reach, f.bindings).result;
      var effect := Effect(placed.target, placed.mode);
      var access := DeclaredAccess(effect, borne.holds, borne.reach, Stamp(f.line));
      Ok(Yield([access], [Bounded(effect, placed.width)], [], []))
    case Requires(_, rule) =>
      var judged :- parts.condition(rule, f.bindings).result;
      Ok(Yield([], [], [judged], []))
    case Proves(_, claim) =>
      var proven :- parts.claim(claim, f.bindings).result;
      Ok(Yield([], [], [], Proven([], proven)))
    case ForEach(_, _, _) => Ok(NOTHING)
  }

  function MadeAll(parts: Parts, fs: seq<Firing>): Outcome<Yield> {
    if fs == [] then Ok(NOTHING)
    else
      var first :- Made(parts, fs[0]);
      var rest :- MadeAll(parts, fs[1..]);
      Ok(first.Then(rest))
  }

  lemma {:induction false} YieldsJoin(x: Yield, y: Yield, z: Yield)
    ensures x.Then(y).Then(z) == x.Then(y.Then(z))
    ensures NOTHING.Then(x) == x == x.Then(NOTHING)
  {}

  lemma {:induction false} MadeInTurn(parts: Parts, a: seq<Firing>, b: seq<Firing>)
    requires MadeAll(parts, a).Ok? && MadeAll(parts, b).Ok?
    ensures MadeAll(parts, a + b) == Ok(MadeAll(parts, a).value.Then(MadeAll(parts, b).value))
    decreases |a|
  {
    hide Made, Yield.Then;
    var z := MadeAll(parts, b).value;
    if a == [] {
      assert a + b == b;
      YieldsJoin(z, z, z);
    } else {
      assert (a + b)[1..] == a[1..] + b && (a + b)[0] == a[0];
      MadeInTurn(parts, a[1..], b);
      YieldsJoin(Made(parts, a[0]).value, MadeAll(parts, a[1..]).value, z);
    }
  }

  lemma {:induction false} MadeAlone(parts: Parts, f: Firing)
    requires Made(parts, f).Ok?
    ensures MadeAll(parts, [f]) == Made(parts, f)
  {
    hide Made, Yield.Then;
    assert [f][1..] == [];
    YieldsJoin(Made(parts, f).value, NOTHING, NOTHING);
  }

  /** `a` is the access a firing makes. */
  ghost predicate Makes(parts: Parts, f: Firing, a: DeclaredAccess) {
    f.clause.Access? && Made(parts, f).Ok? && Made(parts, f).value.accesses == [a]
  }

  lemma {:induction false} AccessesAreStamped(parts: Parts, f: Firing, a: DeclaredAccess)
    requires Makes(parts, f, a)
    ensures a.clause == Stamp(f.line)
  {}

  /** Every access firings make is one of theirs. */
  lemma {:induction false} AccessesAreMade(parts: Parts, fs: seq<Firing>, a: DeclaredAccess)
    requires MadeAll(parts, fs).Ok? && a in MadeAll(parts, fs).value.accesses
    ensures exists f <- fs :: Makes(parts, f, a)
    decreases |fs|
  {
    if a in MadeAll(parts, fs[1..]).value.accesses {
      AccessesAreMade(parts, fs[1..], a);
      var f :| f in fs[1..] && Makes(parts, f, a);
      assert f in fs;
    } else {
      assert Makes(parts, fs[0], a);
    }
  }

  /** Whoever holds an instance holds its badge: every claim's widening is beside it. */
  predicate Widens(claims: seq<Claim>) {
    forall i :: 0 <= i < |claims| && claims[i].Widened().Some? ==> claims[i].Widened().value in claims
  }

  lemma {:induction false} ClaimsWiden(parts: Parts, fs: seq<Firing>)
    requires MadeAll(parts, fs).Ok?
    ensures Widens(MadeAll(parts, fs).value.claims)
    decreases |fs|
  {
    if fs != [] {
      ClaimsWiden(parts, fs[1..]);
      var first, rest := Made(parts, fs[0]).value.claims, MadeAll(parts, fs[1..]).value.claims;
      assert Widens(first) by { WidenedBeside(parts, fs[0]); }
      WidenTogether(first, rest);
    }
  }

  lemma {:induction false} WidenedBeside(parts: Parts, f: Firing)
    requires Made(parts, f).Ok?
    ensures Widens(Made(parts, f).value.claims)
  {
    if f.clause.Proves? {
      var claim := parts.claim(f.clause.claim, f.bindings).result.value;
      var all := Proven([], claim);
      assert |all| == 2 ==> all[1] == claim.Widened().value && all[1] in all;
    }
  }

  lemma {:induction false} WidenTogether(a: seq<Claim>, b: seq<Claim>)
    requires Widens(a) && Widens(b)
    ensures Widens(a + b)
  {
    forall i | 0 <= i < |a + b| && (a + b)[i].Widened().Some? ensures (a + b)[i].Widened().value in a + b {
      if i < |a| {
        assert a[i].Widened().value in a;
      } else {
        assert b[i - |a|].Widened().value in b;
      }
    }
  }

  // ------------------------------------------------------------- a run makes its firings

  /** `e` is `d` with exactly what the firings make, in their order. */
  ghost predicate Fires(parts: Parts, fs: Outcome<seq<Firing>>, d: Draft, e: Draft) {
    && fs.Ok? && MadeAll(parts, fs.value).Ok?
    && var made := MadeAll(parts, fs.value).value;
    && e.ordered == d.ordered + made.accesses
    && e.entries == d.entries + made.entries
    && e.conditions == d.conditions + made.conditions
    && e.proves == d.proves + made.claims
  }

  lemma {:induction false} FiresInTurn(parts: Parts, a: seq<Firing>, b: seq<Firing>, d: Draft, e: Draft, f: Draft)
    requires Fires(parts, Ok(a), d, e) && Fires(parts, Ok(b), e, f)
    ensures Fires(parts, Ok(a + b), d, f)
  {
    hide MadeAll;
    MadeInTurn(parts, a, b);
  }

  /** Inside a loop, nothing a binding names at the top is touched. */
  ghost predicate Beneath(depth: nat, d: Draft, e: Draft) {
    depth > 0 ==> e.taken == d.taken && e.expansions == d.expansions
  }

  lemma {:induction false} FiringOnce(c: Clause, parts: Parts, bindings: seq<Value>, depth: nat, index: Word32, at: nat,
                                      d: Draft)
    requires !c.ForEach? && Declare(c, parts, bindings, depth, index, Stamp(at), d).result.Ok?
    ensures var e := Declare(c, parts, bindings, depth, index, Stamp(at), d).result.value;
            && Fires(parts, Ok([Firing(at, c, bindings)]), d, e)
            && e.preorder == d.preorder && e.taken == d.taken && e.expansions == d.expansions
  {
    hide MadeAll;
    MadeAlone(parts, Firing(at, c, bindings));
  }

  /** A clause run from line `at` declares exactly what its firings make, in their order, and
      the walk resumes past all its lines, whatever guards fired and however many elements its
      loops mapped. */
  lemma {:induction false} ClausesFire(
    c: Clause, parts: Parts, bindings: seq<Value>, depth: nat, index: Word32, d: Draft, at: nat)
    requires d.preorder == Stamp(at)
    requires RunClause(c, parts, bindings, depth, index, d).result.Ok?
    ensures var e := RunClause(c, parts, bindings, depth, index, d).result.value;
            && Fires(parts, FiringsOf(c, parts, bindings, at), d, e)
            && e.preorder == Stamp(at + |LinesOf(c)|)
            && Beneath(depth, d, e)
    decreases c, 1
  {
    var taken := Taken(c.guard, parts, bindings).result.value;
    var entered := d.(preorder := SaturatingAdd32(d.preorder, 1),
                      taken := if depth == 0 then d.taken + [taken] else d.taken);
    if taken {
      DeclaringFires(c, parts, bindings, depth, index, entered, at);
    } else if c.ForEach? {
      PreorderLenCountsLines(c.body);
    }
  }

  lemma {:induction false} DeclaringFires(
    c: Clause, parts: Parts, bindings: seq<Value>, depth: nat, index: Word32, d: Draft, at: nat)
    requires d.preorder == Stamp(at + 1)
    requires Taken(c.guard, parts, bindings).result == Ok(true)
    requires Declare(c, parts, bindings, depth, index, Stamp(at), d).result.Ok?
    ensures var e := Declare(c, parts, bindings, depth, index, Stamp(at), d).result.value;
            && Fires(parts, FiringsOf(c, parts, bindings, at), d, e)
            && e.preorder == Stamp(at + |LinesOf(c)|)
            && Beneath(depth, d, e)
    decreases c, 0
  {
    hide FiringsOver, MadeAll, RunItems;
    if c.ForEach? {
      var items := parts.items(c.list, bindings).result.value;
      LoopsFire(items, c.body, parts, bindings, depth, index, d, at + 1);
      PreorderLenCountsLines(c.body);
    } else {
      FiringOnce(c, parts, bindings, depth, index, at, d);
    }
  }

  lemma {:induction false} LoopsFire(
    items: seq<Value>, body: seq<Clause>, parts: Parts, bindings: seq<Value>, depth: nat, index: Word32, d: Draft,
    at: nat)
    requires RunItems(items, body, parts, bindings, depth, index, Stamp(at), d).result.Ok?
    ensures var e := RunItems(items, body, parts, bindings, depth, index, Stamp(at), d).result.value.draft;
            && Fires(parts, FiringsOver(items, body, parts, bindings, at), d, e)
            && Beneath(depth + 1, d, e)
    decreases body, 1, |items|
  {
    hide Fires;
    if items == [] {
      FiresNothing(parts, d);
    } else {
      var e := RunItems(items, body, parts, bindings, depth, index, Stamp(at), d).result.value.draft;
      var begun := Charged(d).value.(preorder := Stamp(at), passes := d.passes + 1);
      var pass := RunBody(body, parts, bindings + [items[0]], depth + 1, index, begun).result.value;
      BodiesFire(body, parts, bindings + [items[0]], depth + 1, index, begun, at);
      LoopsFire(items[1..], body, parts, bindings, depth, index, pass.draft, at);
      FiresFrom(parts, FiringsIn(body, parts, bindings + [items[0]], at), begun, d, pass.draft);
      FiresBoth(parts, FiringsIn(body, parts, bindings + [items[0]], at),
                FiringsOver(items[1..], body, parts, bindings, at), d, pass.draft, e);
    }
  }

  lemma {:induction false} FiresNothing(parts: Parts, d: Draft)
    ensures Fires(parts, Ok([]), d, d)
  {}

  lemma {:induction false} FiresFrom(parts: Parts, fs: Outcome<seq<Firing>>, begun: Draft, d: Draft, e: Draft)
    requires Fires(parts, fs, begun, e)
    requires begun.ordered == d.ordered && begun.entries == d.entries
    requires begun.conditions == d.conditions && begun.proves == d.proves
    ensures Fires(parts, fs, d, e)
  {}

  lemma {:induction false} FiresMore(parts: Parts, fs: Outcome<seq<Firing>>, d: Draft, e: Draft)
    requires Fires(parts, fs, d, e)
    ensures d.ordered <= e.ordered
  {}

  lemma {:induction false} FiresBoth(parts: Parts, first: Outcome<seq<Firing>>, rest: Outcome<seq<Firing>>,
                                     d: Draft, e: Draft, f: Draft)
    requires Fires(parts, first, d, e) && Fires(parts, rest, e, f)
    ensures first.Ok? && rest.Ok? && Fires(parts, Ok(first.value + rest.value), d, f)
  {
    FiresInTurn(parts, first.value, rest.value, d, e, f);
  }

  lemma {:induction false} BodiesFire(
    body: seq<Clause>, parts: Parts, bindings: seq<Value>, depth: nat, index: Word32, d: Draft, at: nat)
    requires d.preorder == Stamp(at)
    requires RunBody(body, parts, bindings, depth, index, d).result.Ok?
    ensures var e := RunBody(body, parts, bindings, depth, index, d).result.value.draft;
            && Fires(parts, FiringsIn(body, parts, bindings, at), d, e)
            && e.preorder == Stamp(at + |Lines(body)|)
            && Beneath(depth, d, e)
    decreases body, 0
  {
    hide Fires, RunClause;
    if body == [] {
      FiresNothing(parts, d);
    } else {
      var e := RunBody(body, parts, bindings, depth, index, d).result.value.draft;
      var next := RunClause(body[0], parts, bindings, depth, index, d).result.value;
      ClausesFire(body[0], parts, bindings, depth, index, d, at);
      BodiesFire(body[1..], parts, bindings, depth, index, next, at + |LinesOf(body[0])|);
      FiresBoth(parts, FiringsOf(body[0], parts, bindings, at),
                FiringsIn(body[1..], parts, bindings, at + |LinesOf(body[0])|), d, next, e);
    }
  }

  lemma {:induction false} RunsFire(clauses: seq<Clause>, n: nat, parts: Parts, d: Draft, spans: seq<Span>, at: nat)
    requires d.preorder == Stamp(at) && RunFrom(clauses, n, parts, d, spans).result.Ok?
    ensures Fires(parts, FiringsIn(clauses, parts, [], at), d, RunFrom(clauses, n, parts, d, spans).result.value.draft)
    decreases |clauses|
  {
    hide Fires, RunClause;
    if clauses == [] {
      FiresNothing(parts, d);
    } else {
      var next := Bracketed(clauses[0], n, parts, d, spans).result.value;
      var e := RunFrom(clauses, n, parts, d, spans).result.value.draft;
      ClausesFire(clauses[0], parts, [], 0, n, d, at);
      RunsFire(clauses[1..], n + 1, parts, next.draft, next.spans, at + |LinesOf(clauses[0])|);
      FiresBoth(parts, FiringsOf(clauses[0], parts, [], at),
                FiringsIn(clauses[1..], parts, [], at + |LinesOf(clauses[0])|), d, next.draft, e);
    }
  }

  /** A declaration that evaluates is exactly what its firings make: every access, condition and
      claim of theirs and no others, in the order of the walk, and no instance is proven without
      its badge. */
  lemma {:induction false} DeclarationsAreTheirFirings(clauses: seq<Clause>, parts: Parts, d: Declaration)
    requires Declares(clauses, parts).result == Ok(d)
    ensures FiringsIn(clauses, parts, [], 0).Ok?
    ensures MadeAll(parts, FiringsIn(clauses, parts, [], 0).value) ==
            Ok(Yield(d.draft.ordered, d.draft.entries, d.draft.conditions, d.draft.proves))
    ensures Widens(d.draft.proves)
  {
    hide RunFrom, FiringsIn, MadeAll;
    RunsFire(clauses, 0, parts, BLANK, [], 0);
    var fs := FiringsIn(clauses, parts, [], 0).value;
    YieldsJoin(MadeAll(parts, fs).value, NOTHING, NOTHING);
    assert Yield(d.draft.ordered, d.draft.entries, d.draft.conditions, d.draft.proves) ==
           NOTHING.Then(MadeAll(parts, fs).value);
    ClaimsWiden(parts, fs);
  }
}
