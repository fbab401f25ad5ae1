/** What a signature's clauses declare: every view of the declaration at once,
    with no ceiling on expression work. */
module Clauses {
  import opened Vocabulary
  import opened Syntax
  import opened EffectSets
  import opened Evaluation

  const MAX_CLAUSE_DEPTH: nat := 4
  const MAX_FOREACH_ELEMENTS: nat := 1024
  const MAX_PROVEN_PER_SIGNATURE: nat := 8

  // --------------------------------------------------------------- numbering

  /** Every clause of a body, loop bodies in place: the preorder a listing numbers. */
  function Lines(clauses: seq<Clause>): seq<Clause>
    decreases clauses
  {
    if clauses == [] then [] else LinesOf(clauses[0]) + Lines(clauses[1..])
  }

  function LinesOf(clause: Clause): (lines: seq<Clause>)
    ensures lines != [] && lines[0] == clause
    decreases clause
  {
    match clause
    case ForEach(_, _, body) => [clause] + Lines(body)
    case _ => [clause]
  }

  /** A line number, stopping at the top of its width. */
  function Stamp(line: nat): Word32 { if line > MAX_WORD32 then MAX_WORD32 else line }

  /** How many lines a body occupies, counted in the width a number is kept in. */
  function PreorderLen(clauses: seq<Clause>): Word32
    decreases clauses
  {
    if clauses == [] then 0 else SaturatingAdd32(PreorderLenOf(clauses[0]), PreorderLen(clauses[1..]))
  }

  function PreorderLenOf(clause: Clause): Word32
    decreases clause
  {
    match clause
    case ForEach(_, _, body) => SaturatingAdd32(1, PreorderLen(body))
    case _ => 1
  }

  // ----------------------------------------------------------- a clause's parts

  /** Whose authority an access naming a foreign cell is made under. */
  datatype Reach = Reach(behaviour: Behaviour, resource: ResourceAddr)

  /** What an access is of, evaluated before its clause is charged. */
  datatype Placed = Placed(target: EffectTarget, width: Word32, mode: Mode)

  /** What an access carries, evaluated after. */
  datatype Borne = Borne(holds: Option<ResourceAddr>, reach: Option<Reach>)

  /** How the expressions inside a clause evaluate over the elements of the loops around it. */
  datatype Parts = Parts(
    guard: (Expr, seq<Value>) -> Priced<bool>,
    placed: (TargetExpr, ModeExpr, seq<Value>) -> Priced<Placed>,
    borne: (TargetExpr, Option<Expr>, Option<Behaviour>, seq<Value>) -> Priced<Borne>,
    condition: (RuleExpr, seq<Value>) -> Priced<Rule<JudgedLeaf>>,
    claim: (Expr, seq<Value>) -> Priced<Claim>,
    items: (Expr, seq<Value>) -> Priced<seq<Value>>)

  datatype DeclaredAccess = DeclaredAccess(effect: Effect, holds: Option<ResourceAddr>, reach: Option<Reach>,
                                           clause: Word32)

  /** Where each element's pass landed, a row for each clause of the body. */
  type Rows = seq<seq<Option<Word32>>>

  /** A declaration being built, and the counters that bound it. `entries` pairs each
      access with its width; `passes` and `proofs` count loop iterations and claims proven. */
  datatype Draft = Draft(
    set_: EffectSet,
    ordered: seq<DeclaredAccess>,
    conditions: seq<Rule<JudgedLeaf>>,
    proves: seq<Claim>,
    taken: seq<bool>,
    expansions: map<Word32, Rows>,
    preorder: Word32,
    work: nat,
    entries: seq<Bounded>,
    passes: nat,
    proofs: nat)

  const BLANK := Draft(map[], [], [], [], [], map[], 0, 0, [], 0, 0)

  function Charged(d: Draft): Outcome<Draft> {
    if d.work + 1 > MAX_EFFECTS_PER_SIGNATURE then Err(TooManyEffects) else Ok(d.(work := d.work + 1))
  }

  // ------------------------------------------------------- the clauses with no body

  /** A clause is taken where it carries no guard or its guard holds. */
  function Taken(guard: Option<Expr>, parts: Parts, bindings: seq<Value>): Priced<bool> {
    if guard.None? then Priced(Ok(true), 0) else parts.guard(guard.value, bindings)
  }

  function Landed(d: Draft, placed: Placed, borne: Borne, number: Word32): Outcome<Draft> {
    var effect := Effect(placed.target, placed.mode);
    var inserted := Insert(d.set_, Bounded(effect, placed.width));
    if inserted.Err? then Err(EvalError.ReserveOverflow)
    else Ok(d.(set_ := inserted.value,
               ordered := d.ordered + [DeclaredAccess(effect, borne.holds, borne.reach, number)],
               entries := d.entries + [Bounded(effect, placed.width)]))
  }

  function RunPlaced(c: Clause, placed: Placed, parts: Parts, bindings: seq<Value>, number: Word32, d: Draft)
    : Priced<Draft>
    requires c.Access?
  {
    var (borne, spent) :- parts.borne(c.target, c.denomination, c.reach, bindings);
    Priced(Landed(d, placed, borne, number), spent)
  }

  function RunAccess(c: Clause, parts: Parts, bindings: seq<Value>, number: Word32, d: Draft): Priced<Draft>
    requires c.Access?
  {
    var (placed, spent) :- parts.placed(c.target, c.mode, bindings);
    var (d, spent) :- Priced(Charged(d), spent);
    RunPlaced(c, placed, parts, bindings, number, d).Plus(spent)
  }

  function RunRequires(c: Clause, parts: Parts, bindings: seq<Value>, d: Draft): Priced<Draft>
    requires c.Requires?
  {
    var (d, spent) :- Priced(Charged(d), 0);
    var (judged, spent) :- parts.condition(c.rule, bindings).Plus(spent);
    Priced(Ok(d.(conditions := d.conditions + [judged])), spent)
  }

  /** A proven claim, and the badge an instance claim widens to. */
  function Proven(proves: seq<Claim>, claim: Claim): seq<Claim> {
    if claim.Widened().Some? then proves + [claim] + [claim.Widened().value] else proves + [claim]
  }

  function RunProves(c: Clause, parts: Parts, bindings: seq<Value>, d: Draft): Priced<Draft>
    requires c.Proves?
  {
    var (d, spent) :- Priced(Charged(d), 0);
    var (claim, spent) :- parts.claim(c.claim, bindings).Plus(spent);
    var proves := Proven(d.proves, claim);
    if |proves| > MAX_PROVEN_PER_SIGNATURE then Priced(Err(ProvesPastCap), spent)
    else Priced(Ok(d.(proves := proves, proofs := d.proofs + 1)), spent)
  }

  // ------------------------------------------------------------------- whole clauses

  /** A clause that declared nothing this run: its lines keep their numbers, and a
      top-level loop files rows over no elements. */
  function Skipped(c: Clause, depth: nat, index: Word32, d: Draft): Draft {
    if !c.ForEach? then d
    else
      var d := d.(preorder := SaturatingAdd32(d.preorder, PreorderLen(c.body)));
      if depth > 0 then d else d.(expansions := d.expansions[index := seq(|c.body|, _ => [])])
  }

  /** One clause: its number is taken before its guard, so a line keeps its number
      whether or not it declared anything this run. */
  function RunClause(c: Clause, parts: Parts, bindings: seq<Value>, depth: nat, index: Word32, d: Draft): Priced<Draft>
    decreases c, 1
  {
    if depth > MAX_CLAUSE_DEPTH then Priced(Err(ClausesTooDeep), 0)
    else
      var (taken, spent) :- Taken(c.guard, parts, bindings);
      var entered := d.(preorder := SaturatingAdd32(d.preorder, 1),
                        taken := if depth == 0 then d.taken + [taken] else d.taken);
      if !taken then Priced(Ok(Skipped(c, depth, index, entered)), spent)
      else Declare(c, parts, bindings, depth, index, d.preorder, entered).Plus(spent)
  }

  function Declare(c: Clause, parts: Parts, bindings: seq<Value>, depth: nat, index: Word32, number: Word32, d: Draft)
    : Priced<Draft>
    decreases c, 0
  {
    match c
    case Access(_, _, _, _, _) => RunAccess(c, parts, bindings, number, d)
    case Requires(_, _) => RunRequires(c, parts, bindings, d)
    case Proves(_, _) => RunProves(c, parts, bindings, d)
    case ForEach(_, list, body) =>
      var (items, spent) :- parts.items(list, bindings);
      var (loop, spent) :- RunItems(items, body, parts, bindings, depth, index, d.preorder, d).Plus(spent);
      Priced(Ok(Filed(body, depth, index, d.preorder, loop)), spent)
  }

  /** A loop under way: what it has declared, and where each element's pass landed. */
  datatype Loop = Loop(draft: Draft, landings: seq<seq<Option<Word32>>>)

  /** One element's pass over a body: what it declared, and where each body clause landed. */
  datatype Pass = Pass(draft: Draft, landed: seq<Option<Word32>>)

  /** The rows of a loop, element by element within each row. */
  function Rowed(body: seq<Clause>, landings: seq<seq<Option<Word32>>>): Rows
    requires forall k :: 0 <= k < |landings| ==> |landings[k]| == |body|
  {
    seq(|body|, site requires 0 <= site < |body| =>
      seq(|landings|, k requires 0 <= k < |landings| => landings[k][site]))
  }

  /** The walk resumes past the whole body, and a top-level loop files its rows. */
  function Filed(body: seq<Clause>, depth: nat, index: Word32, start: Word32, loop: Loop): Draft
    requires forall k :: 0 <= k < |loop.landings| ==> |loop.landings[k]| == |body|
  {
    var d := loop.draft.(preorder := SaturatingAdd32(start, PreorderLen(body)));
    if depth > 0 then d else d.(expansions := d.expansions[index := Rowed(body, loop.landings)])
  }

  /** The body over each element, every pass restarting at the body's first line. */
  function RunItems(items: seq<Value>, body: seq<Clause>, parts: Parts, bindings: seq<Value>,
                    depth: nat, index: Word32, start: Word32, d: Draft): (p: Priced<Loop>)
    ensures p.result.Ok? ==> |p.result.value.landings| == |items|
    ensures p.result.Ok? ==> forall k :: 0 <= k < |items| ==> |p.result.value.landings[k]| == |body|
    decreases body, 1, |items|
  {
    if items == [] then Priced(Ok(Loop(d, [])), 0)
    else
      var (d, spent) :- Priced(Charged(d), 0);
      var begun := d.(preorder := start, passes := d.passes + 1);
      var (pass, spent) :- RunBody(body, parts, bindings + [items[0]], depth + 1, index, begun).Plus(spent);
      var (rest, spent) :- RunItems(items[1..], body, parts, bindings, depth, index, start, pass.draft).Plus(spent);
      Priced(Ok(Loop(rest.draft, [pass.landed] + rest.landings)), spent)
  }

  /** Where a body clause landed: the one entry it declared, or nowhere. */
  function Landing(c: Clause, before: nat, after: nat): Option<Word32> {
    if c.Access? && after == before + 1 && before <= MAX_WORD32 then Some(before) else None
  }

  function RunBody(body: seq<Clause>, parts: Parts, bindings: seq<Value>, depth: nat, index: Word32, d: Draft)
    : (p: Priced<Pass>)
    ensures p.result.Ok? ==> |p.result.value.landed| == |body|
    decreases body, 0
  {
    if body == [] then Priced(Ok(Pass(d, [])), 0)
    else
      var (next, spent) :- RunClause(body[0], parts, bindings, depth, index, d);
      var landed := Landing(body[0], |d.ordered|, |next.ordered|);
      var (rest, spent) :- RunBody(body[1..], parts, bindings, depth, index, next).Plus(spent);
      Priced(Ok(Pass(rest.draft, [landed] + rest.landed)), spent)
  }

  // ---------------------------------------------------------------- whole signatures

  /** Where a top-level clause's accesses sit in the flattened order. */
  datatype Span = Span(start: Word32, len: Word32) {
    function End(): nat { var from: int := start; from + len }
  }

  datatype Declaration = Declaration(draft: Draft, spans: seq<Span>)

  /** One top-level clause, its contribution to the order bracketed. */
  function Bracketed(c: Clause, index: nat, parts: Parts, d: Draft, spans: seq<Span>): Priced<Declaration> {
    if index > MAX_WORD32 then Priced(Err(TooManyEffects), 0)
    else
      var (next, spent) :- RunClause(c, parts, [], 0, index, d);
      var start, end := |d.ordered|, |next.ordered|;
      if start > MAX_WORD32 || end < start || end - start > MAX_WORD32 then Priced(Err(TooManyEffects), spent)
      else Priced(Ok(Declaration(next, spans + [Span(start, end - start)])), spent)
  }

  /** The clauses from `index` on. */
  function RunFrom(clauses: seq<Clause>, index: nat, parts: Parts, d: Draft, spans: seq<Span>): Priced<Declaration>
    decreases |clauses|
  {
    if clauses == [] then Priced(Ok(Declaration(d, spans)), 0)
    else
      var (next, spent) :- Bracketed(clauses[0], index, parts, d, spans);
      RunFrom(clauses[1..], index + 1, parts, next.draft, next.spans).Plus(spent)
  }

  function Declares(clauses: seq<Clause>, parts: Parts): Priced<Declaration> {
    RunFrom(clauses, 0, parts, BLANK, [])
  }
}
