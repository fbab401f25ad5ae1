/** Exactly which declarations evaluate. */
module Acceptance {
  import opened Vocabulary
  import opened Syntax
  import opened EffectSets
  import opened Evaluation
  import opened Clauses
  import opened Firings
  import opened Views

  // ------------------------------------------------------------ what a run passes through

  /** How many elements the loops of a clause map, every nesting counted. */
  function PassesOf(c: Clause, parts: Parts, bindings: seq<Value>): nat
    decreases c, 1
  {
    if !c.ForEach? || Taken(c.guard, parts, bindings).result != Ok(true) then 0
    else
      var items := parts.items(c.list, bindings).result;
      if items.Err? then 0 else PassesOver(items.value, c.body, parts, bindings)
  }

  function PassesOver(items: seq<Value>, body: seq<Clause>, parts: Parts, bindings: seq<Value>): nat
    decreases body, 1, |items|
  {
    if items == [] then 0
    else 1 + PassesIn(body, parts, bindings + [items[0]]) + PassesOver(items[1..], body, parts, bindings)
  }

  function PassesIn(body: seq<Clause>, parts: Parts, bindings: seq<Value>): nat
    decreases body, 0
  {
    if body == [] then 0 else PassesOf(body[0], parts, bindings) + PassesIn(body[1..], parts, bindings)
  }

  function Deeper(a: nat, b: nat): nat { if a < b then b else a }

  /** How deep the clauses a run reaches nest: a loop's body counts only where an element reaches it. */
  function NestOf(c: Clause, parts: Parts, bindings: seq<Value>): nat
    decreases c, 1
  {
    if !c.ForEach? || Taken(c.guard, parts, bindings).result != Ok(true) then 1
    else
      var items := parts.items(c.list, bindings).result;
      if items.Err? then 1 else 1 + NestOver(items.value, c.body, parts, bindings)
  }

  function NestOver(items: seq<Value>, body: seq<Clause>, parts: Parts, bindings: seq<Value>): nat
    decreases body, 1, |items|
  {
    if items == [] then 0
    else Deeper(NestIn(body, parts, bindings + [items[0]]), NestOver(items[1..], body, parts, bindings))
  }

  function NestIn(body: seq<Clause>, parts: Parts, bindings: seq<Value>): nat
    decreases body, 0
  {
    if body == [] then 0 else Deeper(NestOf(body[0], parts, bindings), NestIn(body[1..], parts, bindings))
  }

  // -------------------------------------------------------------------- room for a run

  /** Everything a stretch of a run has to find room for, its firings being `fs`. */
  datatype Load = Load(fs: Outcome<seq<Firing>>, passes: nat, nest: nat)

  /** A run from `d`, `depth` clauses down, has room for a load: every line it fires makes what it
      makes, the clauses and elements fit the bound, the claims theirs, the nesting its, and the
      reserves their width. */
  ghost predicate Room(parts: Parts, load: Load, depth: nat, d: Draft) {
    && load.fs.Ok? && MadeAll(parts, load.fs.value).Ok?
    && var made := MadeAll(parts, load.fs.value).value;
    && d.work + |load.fs.value| + load.passes <= MAX_EFFECTS_PER_SIGNATURE
    && |d.proves| + |made.claims| <= MAX_PROVEN_PER_SIGNATURE
    && (load.nest > 0 ==> depth + load.nest <= MAX_CLAUSE_DEPTH + 1)
    && Fold(d.set_, made.entries).Ok?
  }

  /** What a run that had room leaves for what comes after it. */
  ghost predicate Filled(parts: Parts, load: Load, d: Draft, e: Draft) {
    && load.fs.Ok? && MadeAll(parts, load.fs.value).Ok?
    && var made := MadeAll(parts, load.fs.value).value;
    && e.work == d.work + |load.fs.value| + load.passes
    && e.proves == d.proves + made.claims
    && Fold(d.set_, made.entries) == Ok(e.set_)
  }

  /** One load and then another. */
  ghost predicate InTurn(a: Load, b: Load, whole: Load) {
    && (whole.fs.Ok? <==> a.fs.Ok? && b.fs.Ok?)
    && (whole.fs.Ok? ==> whole.fs.value == a.fs.value + b.fs.value)
    && whole.passes == a.passes + b.passes
    && whole.nest == Deeper(a.nest, b.nest)
  }

  lemma {:induction false} MadeApart(parts: Parts, a: seq<Firing>, b: seq<Firing>)
    ensures MadeAll(parts, a + b).Ok? <==> MadeAll(parts, a).Ok? && MadeAll(parts, b).Ok?
    decreases |a|
  {
    hide Made;
    if a == [] {
      assert a + b == b;
    } else {
      assert (a + b)[1..] == a[1..] + b && (a + b)[0] == a[0];
      MadeApart(parts, a[1..], b);
    }
  }

  lemma {:induction false} FoldFirst(s: EffectSet, a: seq<Bounded>, b: seq<Bounded>)
    requires Fold(s, a + b).Ok?
    ensures Fold(s, a).Ok?
    decreases |a|
  {
    if a != [] {
      assert (a + b)[1..] == a[1..] + b && (a + b)[0] == a[0];
      FoldFirst(Insert(s, a[0]).value, a[1..], b);
    }
  }

  lemma {:induction false} RoomForFirst(parts: Parts, a: Load, b: Load, whole: Load, depth: nat, d: Draft)
    requires InTurn(a, b, whole) && Room(parts, whole, depth, d)
    ensures Room(parts, a, depth, d)
  {
    hide MadeAll, Fold;
    MadeApart(parts, a.fs.value, b.fs.value);
    MadeInTurn(parts, a.fs.value, b.fs.value);
    FoldFirst(d.set_, MadeAll(parts, a.fs.value).value.entries, MadeAll(parts, b.fs.value).value.entries);
  }

  lemma {:induction false} RoomForRest(parts: Parts, a: Load, b: Load, whole: Load, depth: nat, d: Draft, next: Draft)
    requires InTurn(a, b, whole) && Room(parts, a, depth, d) && Filled(parts, a, d, next)
    ensures Room(parts, whole, depth, d) <==> Room(parts, b, depth, next)
  {
    hide MadeAll, Fold;
    if b.fs.Ok? {
      MadeApart(parts, a.fs.value, b.fs.value);
      if MadeAll(parts, b.fs.value).Ok? {
        MadeInTurn(parts, a.fs.value, b.fs.value);
        FoldAppend(d.set_, MadeAll(parts, a.fs.value).value.entries, MadeAll(parts, b.fs.value).value.entries);
      }
    }
  }

  lemma {:induction false} FilledInTurn(parts: Parts, a: Load, b: Load, whole: Load, d: Draft, next: Draft, e: Draft)
    requires InTurn(a, b, whole) && Filled(parts, a, d, next) && Filled(parts, b, next, e)
    ensures Filled(parts, whole, d, e)
  {
    hide MadeAll, Fold;
    MadeInTurn(parts, a.fs.value, b.fs.value);
    FoldAppend(d.set_, MadeAll(parts, a.fs.value).value.entries, MadeAll(parts, b.fs.value).value.entries);
  }

  // ----------------------------------------------------------------- runs that find room

  /** A verdict that answers exactly where there is room, and fills it. */
  ghost predicate Takes(parts: Parts, r: Outcome<Draft>, load: Load, depth: nat, d: Draft) {
    && (r.Ok? <==> Room(parts, load, depth, d))
    && (r.Ok? ==> Filled(parts, load, d, r.value))
  }

  ghost predicate Small(d: Draft) {
    d.work <= MAX_EFFECTS_PER_SIGNATURE && |d.proves| <= MAX_PROVEN_PER_SIGNATURE
  }

  lemma {:induction false} TakesInTurn(parts: Parts, a: Load, b: Load, whole: Load, depth: nat, d: Draft,
                                       first: Outcome<Draft>, second: Outcome<Draft>, r: Outcome<Draft>)
    requires InTurn(a, b, whole) && Takes(parts, first, a, depth, d)
    requires first.Ok? ==> Takes(parts, second, b, depth, first.value)
    requires r.Ok? <==> first.Ok? && second.Ok?
    requires r.Ok? ==> r == second
    ensures Takes(parts, r, whole, depth, d)
  {
    hide Room, Filled, InTurn;
    if first.Ok? {
      RoomForRest(parts, a, b, whole, depth, d, first.value);
      if second.Ok? {
        FilledInTurn(parts, a, b, whole, d, first.value, second.value);
      }
    } else if Room(parts, whole, depth, d) {
      RoomForFirst(parts, a, b, whole, depth, d);
    }
  }

  lemma {:induction false} TakesNothing(parts: Parts, nest: nat, depth: nat, d: Draft, e: Draft)
    requires Small(d) && (nest > 0 ==> depth + nest <= MAX_CLAUSE_DEPTH + 1)
    requires e.work == d.work && e.proves == d.proves && e.set_ == d.set_
    ensures Takes(parts, Ok(e), Load(Ok([]), 0, nest), depth, d)
  {}

  function ClauseLoad(c: Clause, parts: Parts, bindings: seq<Value>, at: nat): Load {
    Load(FiringsOf(c, parts, bindings, at), PassesOf(c, parts, bindings), NestOf(c, parts, bindings))
  }

  function BodyLoad(body: seq<Clause>, parts: Parts, bindings: seq<Value>, at: nat): Load {
    Load(FiringsIn(body, parts, bindings, at), PassesIn(body, parts, bindings), NestIn(body, parts, bindings))
  }

  function LoopLoad(items: seq<Value>, body: seq<Clause>, parts: Parts, bindings: seq<Value>, at: nat): Load {
    Load(FiringsOver(items, body, parts, bindings, at), PassesOver(items, body, parts, bindings),
         NestOver(items, body, parts, bindings))
  }

  lemma {:induction false} OneFold(s: EffectSet, entry: Bounded)
    ensures Fold(s, [entry]) == Insert(s, entry)
    ensures Fold(s, []) == Ok(s)
  {
    assert [entry][1..] == [];
  }

  /** A clause with no body, taken, fits exactly where what it makes does. */
  lemma {:induction false} LinesTake(
      c: Clause, parts: Parts, bindings: seq<Value>, depth: nat, index: Word32, number: Word32, at: nat, d: Draft)
    requires !c.ForEach? && depth <= MAX_CLAUSE_DEPTH && Small(d)
    ensures Takes(parts, Declare(c, parts, bindings, depth, index, number, d).result,
                  Load(Ok([Firing(at, c, bindings)]), 0, 1), depth, d)
  {
    hide MadeAll, Fold;
    var f := Firing(at, c, bindings);
    assert MadeAll(parts, [f]).Ok? <==> Made(parts, f).Ok? by { AloneIsMade(parts, f); }
    if Made(parts, f).Ok? {
      MadeAlone(parts, f);
      if c.Access? {
        OneFold(d.set_, Made(parts, f).value.entries[0]);
      } else {
        NoFold(d.set_);
      }
    }
  }

  lemma {:induction false} NoFold(s: EffectSet)
    ensures Fold(s, []) == Ok(s)
  {}

  lemma {:induction false} AloneIsMade(parts: Parts, f: Firing)
    ensures MadeAll(parts, [f]).Ok? <==> Made(parts, f).Ok?
  {
    hide Made;
    assert [f][1..] == [];
  }

  /** A clause evaluates exactly where there is room for what it fires, the elements it maps and
      the depth it reaches. */
  lemma {:induction false} ClausesTake(
      c: Clause, parts: Parts, bindings: seq<Value>, depth: nat, index: Word32, d: Draft, at: nat)
    requires Small(d)
    ensures Takes(parts, RunClause(c, parts, bindings, depth, index, d).result, ClauseLoad(c, parts, bindings, at),
                  depth, d)
    decreases c, 1
  {
    hide FiringsOver, PassesOver, NestOver, RunItems, MadeAll, Fold;
    var taken := Taken(c.guard, parts, bindings).result;
    if depth <= MAX_CLAUSE_DEPTH && taken.Ok? {
      var entered := d.(preorder := SaturatingAdd32(d.preorder, 1),
                        taken := if depth == 0 then d.taken + [taken.value] else d.taken);
      if !taken.value {
        TakesNothing(parts, 1, depth, d, Skipped(c, depth, index, entered));
      } else if !c.ForEach? {
        LinesTake(c, parts, bindings, depth, index, d.preorder, at, entered);
      } else {
        LoopTakes(c, parts, bindings, depth, index, entered, at);
      }
    }
  }

  lemma {:induction false} LoopTakes(
      c: Clause, parts: Parts, bindings: seq<Value>, depth: nat, index: Word32, d: Draft, at: nat)
    requires c.ForEach? && Small(d) && depth <= MAX_CLAUSE_DEPTH
    requires Taken(c.guard, parts, bindings).result == Ok(true)
    ensures Takes(parts, Declare(c, parts, bindings, depth, index, Stamp(at), d).result,
                  ClauseLoad(c, parts, bindings, at), depth, d)
    decreases c, 0
  {
    hide FiringsOver, PassesOver, NestOver, RunItems, MadeAll, Fold;
    var items := parts.items(c.list, bindings).result;
    if items.Ok? {
      LoopsTake(items.value, c.body, parts, bindings, depth, index, d.preorder, d, at + 1);
    }
  }

  function LoopDraft(loop: Priced<Loop>): Outcome<Draft> {
    if loop.result.Ok? then Ok(loop.result.value.draft) else Err(loop.result.error)
  }

  function PassDraft(pass: Priced<Pass>): Outcome<Draft> {
    if pass.result.Ok? then Ok(pass.result.value.draft) else Err(pass.result.error)
  }

  lemma {:induction false} LoopsTake(
      items: seq<Value>, body: seq<Clause>, parts: Parts, bindings: seq<Value>, depth: nat, index: Word32,
      start: Word32, d: Draft, at: nat)
    requires Small(d)
    ensures Takes(parts, LoopDraft(RunItems(items, body, parts, bindings, depth, index, start, d)),
                  LoopLoad(items, body, parts, bindings, at), depth + 1, d)
    decreases body, 1, |items|
  {
    hide Takes, RunBody, FiringsIn, PassesIn, NestIn;
    if items == [] {
      TakesNothing(parts, 0, depth + 1, d, d);
    } else {
      var over := bindings + [items[0]];
      var charge := Load(Ok([]), 1, 0);
      var pass, rest := BodyLoad(body, parts, over, at), LoopLoad(items[1..], body, parts, bindings, at);
      var first := Load(pass.fs, 1 + pass.passes, pass.nest);
      var charged := Charged(d);
      var begun := if charged.Ok? then charged.value.(preorder := start, passes := d.passes + 1) else d;
      var began: Outcome<Draft> := if charged.Ok? then Ok(begun) else Err(charged.error);
      ChargesTake(parts, depth + 1, d, begun);
      var walked := PassDraft(RunBody(body, parts, over, depth + 1, index, begun));
      if charged.Ok? {
        BodiesTake(body, parts, over, depth + 1, index, begun, at);
      }
      var r1 := if charged.Err? then Err(charged.error) else walked;
      assert pass.fs.Ok? ==> [] + pass.fs.value == pass.fs.value;
      TakesInTurn(parts, charge, pass, first, depth + 1, d, began, walked, r1);
      if r1.Ok? {
        TakenIsSmall(parts, r1.value, first, depth + 1, d);
        LoopsTake(items[1..], body, parts, bindings, depth, index, start, r1.value, at);
      }
      var r2 := if r1.Ok? then LoopDraft(RunItems(items[1..], body, parts, bindings, depth, index, start, r1.value))
                else r1;
      TakesInTurn(parts, first, rest, LoopLoad(items, body, parts, bindings, at), depth + 1, d, r1, r2,
                  LoopDraft(RunItems(items, body, parts, bindings, depth, index, start, d)));
    }
  }

  lemma {:induction false} ChargesTake(parts: Parts, depth: nat, d: Draft, begun: Draft)
    requires Small(d)
    requires Charged(d).Ok? ==> begun.work == d.work + 1 && begun.proves == d.proves && begun.set_ == d.set_
    ensures Charged(d).Ok? ==> Small(begun)
    ensures Takes(parts, if Charged(d).Ok? then Ok(begun) else Err(Charged(d).error), Load(Ok([]), 1, 0), depth, d)
  {}

  lemma {:induction false} TakenIsSmall(parts: Parts, e: Draft, load: Load, depth: nat, d: Draft)
    requires Takes(parts, Ok(e), load, depth, d)
    ensures Small(e)
  {}

  lemma {:induction false} BodiesTake(
      body: seq<Clause>, parts: Parts, bindings: seq<Value>, depth: nat, index: Word32, d: Draft, at: nat)
    requires Small(d)
    ensures Takes(parts, PassDraft(RunBody(body, parts, bindings, depth, index, d)),
                  BodyLoad(body, parts, bindings, at), depth, d)
    decreases body, 0
  {
    hide Takes, RunClause, FiringsOf, PassesOf, NestOf;
    if body == [] {
      TakesNothing(parts, 0, depth, d, d);
    } else {
      var first := RunClause(body[0], parts, bindings, depth, index, d).result;
      var next := at + |LinesOf(body[0])|;
      ClausesTake(body[0], parts, bindings, depth, index, d, at);
      var rest: Outcome<Draft> := first;
      if first.Ok? {
        TakenIsSmall(parts, first.value, ClauseLoad(body[0], parts, bindings, at), depth, d);
        BodiesTake(body[1..], parts, bindings, depth, index, first.value, next);
        rest := PassDraft(RunBody(body[1..], parts, bindings, depth, index, first.value));
      }
      TakesInTurn(parts, ClauseLoad(body[0], parts, bindings, at), BodyLoad(body[1..], parts, bindings, next),
                  BodyLoad(body, parts, bindings, at), depth, d, first, rest,
                  PassDraft(RunBody(body, parts, bindings, depth, index, d)));
    }
  }

  /** The clauses from `n` on evaluate exactly where there is room for them and numbers for them all. */
  lemma {:induction false} RunsTake(clauses: seq<Clause>, n: nat, parts: Parts, d: Draft, spans: seq<Span>, at: nat)
    requires Sound(d) && d.preorder == Stamp(at)
    ensures RunFrom(clauses, n, parts, d, spans).result.Ok? <==>
            && Room(parts, BodyLoad(clauses, parts, [], at), 0, d)
            && (clauses != [] ==> n + |clauses| <= MAX_WORD32 + 1)
    decreases |clauses|
  {
    hide Room, Filled, RunClause, FiringsOf, PassesOf, NestOf, Sound;
    SoundIsSmall(d);
    if clauses == [] {
      TakesNothing(parts, 0, 0, d, d);
    } else {
      var first := RunClause(clauses[0], parts, [], 0, 0, d).result;
      var load, next := ClauseLoad(clauses[0], parts, [], at), at + |LinesOf(clauses[0])|;
      var rest, whole := BodyLoad(clauses[1..], parts, [], next), BodyLoad(clauses, parts, [], at);
      if n <= MAX_WORD32 {
        first := RunClause(clauses[0], parts, [], 0, n, d).result;
        ClausesTake(clauses[0], parts, [], 0, n, d, at);
        if first.Ok? {
          StepTakes(clauses[0], parts, n, d, first.value, at);
          RunsTake(clauses[1..], n + 1, parts, first.value,
                   spans + [Span(|d.ordered|, |first.value.ordered| - |d.ordered|)], next);
          RoomForRest(parts, load, rest, whole, 0, d, first.value);
        } else if Room(parts, whole, 0, d) {
          RoomForFirst(parts, load, rest, whole, 0, d);
        }
      }
    }
  }

  lemma {:induction false} SoundIsSmall(d: Draft)
    requires Sound(d)
    ensures Small(d)
  {}

  lemma {:induction false} StepTakes(c: Clause, parts: Parts, n: Word32, d: Draft, e: Draft, at: nat)
    requires Sound(d) && d.preorder == Stamp(at) && RunClause(c, parts, [], 0, n, d).result == Ok(e)
    ensures Sound(e) && e.preorder == Stamp(at + |LinesOf(c)|)
    ensures |d.ordered| <= |e.ordered| <= MAX_WORD32
  {
    hide RunClause, Sound, Fires;
    ClausesKeepSound(c, parts, [], 0, n, d);
    ClausesFire(c, parts, [], 0, n, d, at);
    FiresMore(parts, FiringsOf(c, parts, [], at), d, e);
    SoundIsBounded(e);
  }

  /** Every guard, list and part a declaration reaches evaluates, its lines that fire and the elements
      it maps number at most 4096, its claims at most eight, its clauses nest at most five deep where
      they are reached, its reserves fit their width, and its clauses can be numbered. */
  ghost predicate Acceptable(clauses: seq<Clause>, parts: Parts) {
    && |clauses| <= MAX_WORD32 + 1
    && NestIn(clauses, parts, []) <= 5
    && var fs := FiringsIn(clauses, parts, [], 0);
    && fs.Ok? && MadeAll(parts, fs.value).Ok?
    && |fs.value| + PassesIn(clauses, parts, []) <= 4096
    && |MadeAll(parts, fs.value).value.claims| <= 8
    && Fold(map[], MadeAll(parts, fs.value).value.entries).Ok?
  }

  /** A declaration evaluates if and only if it is acceptable. */
  lemma {:induction false} DeclarationsEvaluateExactly(clauses: seq<Clause>, parts: Parts)
    ensures Declares(clauses, parts).result.Ok? <==> Acceptable(clauses, parts)
  {
    hide RunFrom, FiringsIn, PassesIn, NestIn, MadeAll, Fold;
    BlankIsSound();
    RunsTake(clauses, 0, parts, BLANK, [], 0);
  }

  lemma {:induction false} BlankIsSound()
    ensures Sound(BLANK)
  {}
}
