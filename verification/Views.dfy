/** What every successful evaluation's views agree on. */
module Views {
  import opened Vocabulary
  import opened Syntax
  import opened EffectSets
  import opened Evaluation
  import opened Clauses
  import opened Firings

  // ------------------------------------------------------------------ the counters

  /** What holds of a declaration wherever it is in being built: its counters account
      for everything in it, its caps hold, and its set is its own accesses folded. */
  ghost predicate Sound(d: Draft) {
    && d.work == |d.ordered| + |d.conditions| + d.proofs + d.passes
    && d.work <= MAX_EFFECTS_PER_SIGNATURE
    && |d.proves| <= MAX_PROVEN_PER_SIGNATURE
    && |d.entries| == |d.ordered|
    && (forall i :: 0 <= i < |d.entries| ==> d.entries[i].effect == d.ordered[i].effect)
    && Fold(map[], d.entries) == Ok(d.set_)
  }

  lemma {:induction false} SoundIsBounded(d: Draft)
    requires Sound(d)
    ensures |d.ordered| <= MAX_WORD32
  {}

  lemma {:induction false} LandingIsSound(d: Draft, placed: Placed, borne: Borne, number: Word32)
    requires Sound(d) && d.work < MAX_EFFECTS_PER_SIGNATURE
    requires Landed(d.(work := d.work + 1), placed, borne, number).Ok?
    ensures Sound(Landed(d.(work := d.work + 1), placed, borne, number).value)
  {
    var entry := Bounded(Effect(placed.target, placed.mode), placed.width);
    FoldAppend(map[], d.entries, [entry]);
    assert Fold(d.set_, [entry]) == Insert(d.set_, entry) by {
      assert [entry][1..] == [];
    }
  }

  /** Every clause keeps a declaration sound, however deep it sits. */
  lemma {:induction false} ClausesKeepSound(
      c: Clause, parts: Parts, bindings: seq<Value>, depth: nat, index: Word32, d: Draft)
    requires Sound(d)
    ensures var r := RunClause(c, parts, bindings, depth, index, d).result; r.Ok? ==> Sound(r.value)
    decreases c, 1
  {
    if depth <= MAX_CLAUSE_DEPTH && Taken(c.guard, parts, bindings).result.Ok? {
      var taken := Taken(c.guard, parts, bindings).result.value;
      var entered := d.(preorder := SaturatingAdd32(d.preorder, 1),
                        taken := if depth == 0 then d.taken + [taken] else d.taken);
      DeclaringKeepsSound(c, parts, bindings, depth, index, d.preorder, entered);
    }
  }

  lemma {:induction false} DeclaringKeepsSound(
    c: Clause, parts: Parts, bindings: seq<Value>, depth: nat, index: Word32, number: Word32, d: Draft)
    requires Sound(d)
    ensures var r := Declare(c, parts, bindings, depth, index, number, d).result; r.Ok? ==> Sound(r.value)
    decreases c, 0
  {
    hide Fold;
    match c
    case Access(_, _, _, _, _) => AccessesKeepSound(c, parts, bindings, number, d);
    case Requires(_, _) =>
    case Proves(_, _) =>
    case ForEach(_, list, body) =>
      var items := parts.items(list, bindings).result;
      if items.Ok? {
        LoopsKeepSound(items.value, body, parts, bindings, depth, index, d.preorder, d);
      }
  }

  lemma {:induction false} AccessesKeepSound(
      c: Clause, parts: Parts, bindings: seq<Value>, number: Word32, d: Draft)
    requires c.Access? && Sound(d)
    ensures var r := RunAccess(c, parts, bindings, number, d).result; r.Ok? ==> Sound(r.value)
  {
    hide Sound, Landed;
    var placed, borne := parts.placed(c.target, c.mode, bindings).result,
        parts.borne(c.target, c.denomination, c.reach, bindings).result;
    if placed.Ok? && borne.Ok? && d.work < MAX_EFFECTS_PER_SIGNATURE
       && Landed(d.(work := d.work + 1), placed.value, borne.value, number).Ok? {
      LandingIsSound(d, placed.value, borne.value, number);
    }
  }

  lemma {:induction false} LoopsKeepSound(items: seq<Value>, body: seq<Clause>, parts: Parts, bindings: seq<Value>,
                                          depth: nat, index: Word32, start: Word32, d: Draft)
    requires Sound(d)
    ensures var r := RunItems(items, body, parts, bindings, depth, index, start, d).result; r.Ok? ==>
            Sound(r.value.draft)
    decreases body, 1, |items|
  {
    if items != [] && Charged(d).Ok? {
      var begun := Charged(d).value.(preorder := start, passes := d.passes + 1);
      assert Sound(begun);
      BodiesKeepSound(body, parts, bindings + [items[0]], depth + 1, index, begun);
      var pass := RunBody(body, parts, bindings + [items[0]], depth + 1, index, begun).result;
      if pass.Ok? {
        LoopsKeepSound(items[1..], body, parts, bindings, depth, index, start, pass.value.draft);
      }
    }
  }

  lemma {:induction false} BodiesKeepSound(
      body: seq<Clause>, parts: Parts, bindings: seq<Value>, depth: nat, index: Word32, d: Draft)
    requires Sound(d)
    ensures var r := RunBody(body, parts, bindings, depth, index, d).result; r.Ok? ==> Sound(r.value.draft)
    decreases body, 0
  {
    if body != [] {
      ClausesKeepSound(body[0], parts, bindings, depth, index, d);
      var next := RunClause(body[0], parts, bindings, depth, index, d).result;
      if next.Ok? {
        BodiesKeepSound(body[1..], parts, bindings, depth, index, next.value);
      }
    }
  }

  // --------------------------------------------------------------------- landings

  /** The line a body clause sits at, counted from the body's first. */
  function LineIn(body: seq<Clause>, site: nat): nat
    requires site <= |body|
  {
    |Lines(body[..site])|
  }

  lemma {:induction false} LineInTail(body: seq<Clause>, site: nat)
    requires 0 < site <= |body|
    ensures LineIn(body, site) == |LinesOf(body[0])| + LineIn(body[1..], site - 1)
  {
    assert body[..site][0] == body[0] && body[..site][1..] == body[1..][..site - 1];
  }

  /** An access clause whose guard holds over `bindings`. */
  ghost predicate Accesses(parts: Parts, c: Clause, bindings: seq<Value>) {
    c.Access? && Taken(c.guard, parts, bindings).result == Ok(true)
  }

  /** Where a body line landed over `bindings`: nowhere unless it is an access whose guard holds,
      and then at the access it makes, between `from` and `to`. */
  ghost predicate SiteLands(parts: Parts, line: Clause, number: nat, bindings: seq<Value>, from: nat, to: nat,
                            ordered: seq<DeclaredAccess>, entry: Option<Word32>)
  {
    && (entry.Some? <==> Accesses(parts, line, bindings))
    && (entry.Some? ==>
          from <= entry.value < to <= |ordered|
          && Makes(parts, Firing(number, line, bindings), ordered[entry.value]))
  }

  /** An access some line of `c` makes over `bindings` and the elements its own loops map. */
  ghost predicate MadeUnder(parts: Parts, c: Clause, bindings: seq<Value>, at: nat, a: DeclaredAccess) {
    var fs := FiringsOf(c, parts, bindings, at);
    fs.Ok? && exists f <- fs.value :: Makes(parts, f, a)
  }

  /** An access of a loop nested in `body` rather than of a clause of `body` itself. */
  ghost predicate Nested(parts: Parts, body: seq<Clause>, at: nat, bindings: seq<Value>, a: DeclaredAccess) {
    exists site :: 0 <= site < |body| && body[site].ForEach?
                   && MadeUnder(parts, body[site], bindings, at + LineIn(body, site), a)
  }

  /** What one clause contributes: an access clause exactly the one access of its own line where
      its guard holds, a loop only what its body's lines make over its elements, and anything
      else none. */
  lemma {:induction false} ContributionOf(
    c: Clause, parts: Parts, bindings: seq<Value>, depth: nat, index: Word32, d: Draft, at: nat)
    requires d.preorder == Stamp(at) && RunClause(c, parts, bindings, depth, index, d).result.Ok?
    ensures var e := RunClause(c, parts, bindings, depth, index, d).result.value;
            && d.ordered <= e.ordered
            && (!c.ForEach? ==> |e.ordered| == |d.ordered| + (if Accesses(parts, c, bindings) then 1 else 0))
            && (forall p :: |d.ordered| <= p < |e.ordered| ==> MadeUnder(parts, c, bindings, at, e.ordered[p]))
            && (Accesses(parts, c, bindings) ==> Makes(parts, Firing(at, c, bindings), e.ordered[|d.ordered|]))
  {
    hide RunClause, Makes;
    var e := RunClause(c, parts, bindings, depth, index, d).result.value;
    ClausesFire(c, parts, bindings, depth, index, d, at);
    var fs := FiringsOf(c, parts, bindings, at).value;
    var made := MadeAll(parts, fs).value.accesses;
    forall p | |d.ordered| <= p < |e.ordered| ensures MadeUnder(parts, c, bindings, at, e.ordered[p]) {
      assert e.ordered[p] == made[p - |d.ordered|];
      AccessesAreMade(parts, fs, e.ordered[p]);
    }
    if !c.ForEach? {
      PlainClausesMake(c, parts, bindings, at);
    }
  }

  /** A clause with no body makes one access where it is an access taken, and none otherwise. */
  lemma {:induction false} PlainClausesMake(c: Clause, parts: Parts, bindings: seq<Value>, at: nat)
    requires !c.ForEach? && FiringsOf(c, parts, bindings, at).Ok?
    requires MadeAll(parts, FiringsOf(c, parts, bindings, at).value).Ok?
    ensures var made := MadeAll(parts, FiringsOf(c, parts, bindings, at).value).value.accesses;
            && |made| == (if Accesses(parts, c, bindings) then 1 else 0)
            && (Accesses(parts, c, bindings) ==> Makes(parts, Firing(at, c, bindings), made[0]))
  {
    if Taken(c.guard, parts, bindings).result == Ok(true) {
      MadeAlone(parts, Firing(at, c, bindings));
    }
  }

  /** Where one pass over a body landed: at every access of its own clauses whose guards hold,
      and every access of the pass is pointed at unless a nested loop made it. */
  ghost predicate PassLands(
    parts: Parts, body: seq<Clause>, at: nat, bindings: seq<Value>, d: Draft, e: Draft, landed: seq<Option<Word32>>)
  {
    && |landed| == |body|
    && d.ordered <= e.ordered
    && (forall site :: 0 <= site < |body| ==>
          SiteLands(parts, body[site], at + LineIn(body, site), bindings, |d.ordered|, |e.ordered|, e.ordered,
                    landed[site]))
    && (forall p :: |d.ordered| <= p < |e.ordered| ==> Accounted(parts, body, at, bindings, e.ordered[p], p, landed))
  }

  /** Every access is pointed at by the clause that declared it, unless a nested loop declared it. */
  ghost predicate Accounted(parts: Parts, body: seq<Clause>, at: nat, bindings: seq<Value>, a: DeclaredAccess, p: nat,
                            landed: seq<Option<Word32>>)
  {
    PointedAt(landed, p) || Nested(parts, body, at, bindings, a)
  }

  ghost predicate PointedAt(landed: seq<Option<Word32>>, p: nat) {
    exists site :: 0 <= site < |landed| && landed[site].Some? && landed[site].value == p
  }

  lemma {:induction false} BodiesLand(
    body: seq<Clause>, parts: Parts, bindings: seq<Value>, depth: nat, index: Word32, d: Draft, at: nat)
    requires d.preorder == Stamp(at)
    requires RunBody(body, parts, bindings, depth, index, d).result.Ok?
    requires |RunBody(body, parts, bindings, depth, index, d).result.value.draft.ordered| <= MAX_WORD32
    ensures var pass := RunBody(body, parts, bindings, depth, index, d).result.value;
            PassLands(parts, body, at, bindings, d, pass.draft, pass.landed)
    decreases |body|
  {
    hide RunClause, PassLands;
    var pass := RunBody(body, parts, bindings, depth, index, d).result.value;
    if body == [] {
      EmptyBodiesLand(parts, at, bindings, d);
    } else {
      var next := RunClause(body[0], parts, bindings, depth, index, d).result.value;
      var rest := RunBody(body[1..], parts, bindings, depth, index, next).result.value;
      ContributionOf(body[0], parts, bindings, depth, index, d, at);
      ClausesFire(body[0], parts, bindings, depth, index, d, at);
      BodiesLand(body[1..], parts, bindings, depth, index, next, at + |LinesOf(body[0])|);
      PassesJoin(body, parts, at, bindings, d, next, rest.draft, pass.landed);
    }
  }

  lemma {:induction false} EmptyBodiesLand(parts: Parts, at: nat, bindings: seq<Value>, d: Draft)
    ensures PassLands(parts, [], at, bindings, d, d, [])
  {}

  /** A body's landings are its first clause's and then the rest's. */
  lemma {:induction false} PassesJoin(
    body: seq<Clause>, parts: Parts, at: nat, bindings: seq<Value>, d: Draft, next: Draft, e: Draft,
    landed: seq<Option<Word32>>)
    requires |landed| == |body| > 0
    requires d.ordered <= next.ordered && |e.ordered| <= MAX_WORD32
    requires landed[0] == Landing(body[0], |d.ordered|, |next.ordered|)
    requires !body[0].ForEach? ==>
             |next.ordered| == |d.ordered| + (if Accesses(parts, body[0], bindings) then 1 else 0)
    requires forall p :: |d.ordered| <= p < |next.ordered| ==>
               MadeUnder(parts, body[0], bindings, at, next.ordered[p])
    requires Accesses(parts, body[0], bindings) ==>
             Makes(parts, Firing(at, body[0], bindings), next.ordered[|d.ordered|])
    requires PassLands(parts, body[1..], at + |LinesOf(body[0])|, bindings, next, e, landed[1..])
    ensures PassLands(parts, body, at, bindings, d, e, landed)
  {
    hide Makes, MadeUnder, Nested;
    assert LineIn(body, 0) == 0 by { assert body[..0] == []; }
    forall site | 0 <= site < |body|
      ensures SiteLands(parts, body[site], at + LineIn(body, site), bindings, |d.ordered|, |e.ordered|, e.ordered,
                        landed[site])
    {
      if site > 0 {
        LineInTail(body, site);
        assert landed[site] == landed[1..][site - 1] && body[site] == body[1..][site - 1];
      }
    }
    forall p | |d.ordered| <= p < |e.ordered| ensures Accounted(parts, body, at, bindings, e.ordered[p], p, landed) {
      if p < |next.ordered| {
        assert e.ordered[p] == next.ordered[p];
        if body[0].ForEach? {
          NestedFirst(body, parts, at, bindings, e.ordered[p]);
        } else {
          assert landed[0] == Some(p);
        }
      } else {
        AccountedInTail(body, parts, at, bindings, e.ordered[p], p, landed);
      }
    }
  }

  lemma {:induction false} NestedFirst(
      body: seq<Clause>, parts: Parts, at: nat, bindings: seq<Value>, a: DeclaredAccess)
    requires body != [] && body[0].ForEach? && MadeUnder(parts, body[0], bindings, at, a)
    ensures Nested(parts, body, at, bindings, a)
  {
    assert body[..0] == [] && LineIn(body, 0) == 0;
  }

  lemma {:induction false} AccountedInTail(body: seq<Clause>, parts: Parts, at: nat, bindings: seq<Value>,
                                           a: DeclaredAccess, p: nat, landed: seq<Option<Word32>>)
    requires |landed| == |body| > 0
    requires Accounted(parts, body[1..], at + |LinesOf(body[0])|, bindings, a, p, landed[1..])
    ensures Accounted(parts, body, at, bindings, a, p, landed)
  {
    hide MadeUnder;
    if PointedAt(landed[1..], p) {
      var site :| 0 <= site < |landed[1..]| && landed[1..][site].Some? && landed[1..][site].value == p;
      assert landed[site + 1] == Some(p);
    } else {
      var tail, rest := body[1..], at + |LinesOf(body[0])|;
      var site :| 0 <= site < |tail| && tail[site].ForEach?
                  && MadeUnder(parts, tail[site], bindings, rest + LineIn(tail, site), a);
      LineInTail(body, site + 1);
      assert body[site + 1] == tail[site];
    }
  }

  // ------------------------------------------------------------------------ loops

  predicate Ordered(a: Option<Word32>, b: Option<Word32>) { a.Some? && b.Some? ==> a.value < b.value }

  /** Where a loop's passes landed: each element's at the accesses made over that element, after
      every earlier element's, and every access of the loop is some element's. */
  ghost predicate LoopLands(
    parts: Parts, body: seq<Clause>, at: nat, bindings: seq<Value>, items: seq<Value>, d: Draft, e: Draft,
    landings: seq<seq<Option<Word32>>>)
  {
    && d.ordered <= e.ordered
    && |landings| == |items|
    && (forall k :: 0 <= k < |landings| ==> |landings[k]| == |body|)
    && (forall k, site :: 0 <= k < |landings| && 0 <= site < |body| ==>
          SiteLands(parts, body[site], at + LineIn(body, site), bindings + [items[k]], |d.ordered|, |e.ordered|,
                    e.ordered, landings[k][site]))
    && (forall j, k, site :: 0 <= j < k < |landings| && 0 <= site < |body| ==>
          Ordered(landings[j][site], landings[k][site]))
    && (forall p :: |d.ordered| <= p < |e.ordered| ==>
          SomePass(parts, body, at, bindings, items, e.ordered[p], p, landings))
  }

  /** One element's pass accounts for the access at `p`. */
  ghost predicate SomePass(parts: Parts, body: seq<Clause>, at: nat, bindings: seq<Value>, items: seq<Value>,
                           a: DeclaredAccess, p: nat, landings: seq<seq<Option<Word32>>>)
    requires |landings| == |items|
  {
    exists k :: 0 <= k < |items| && Accounted(parts, body, at, bindings + [items[k]], a, p, landings[k])
  }

  lemma {:induction false} LoopsLand(
    items: seq<Value>, body: seq<Clause>, parts: Parts, bindings: seq<Value>, depth: nat, index: Word32, d: Draft,
        at: nat)
    requires RunItems(items, body, parts, bindings, depth, index, Stamp(at), d).result.Ok?
    requires var loop := RunItems(items, body, parts, bindings, depth, index, Stamp(at), d).result.value;
             |loop.draft.ordered| <= MAX_WORD32
    ensures var loop := RunItems(items, body, parts, bindings, depth, index, Stamp(at), d).result.value;
            LoopLands(parts, body, at, bindings, items, d, loop.draft, loop.landings)
    decreases |items|
  {
    hide RunBody;
    if items != [] {
      var loop := RunItems(items, body, parts, bindings, depth, index, Stamp(at), d).result.value;
      var begun := Charged(d).value.(preorder := Stamp(at), passes := d.passes + 1);
      var pass := RunBody(body, parts, bindings + [items[0]], depth + 1, index, begun).result.value;
      var rest := RunItems(items[1..], body, parts, bindings, depth, index, Stamp(at), pass.draft).result.value;
      LoopsLand(items[1..], body, parts, bindings, depth, index, pass.draft, at);
      BodiesLand(body, parts, bindings + [items[0]], depth + 1, index, begun, at);
      assert loop.landings == [pass.landed] + rest.landings;
      LoopsJoin(items, body, parts, at, bindings, begun, pass.draft, loop.draft, pass.landed, rest.landings);
    }
  }

  lemma {:induction false} LoopsJoin(
    items: seq<Value>, body: seq<Clause>, parts: Parts, at: nat, bindings: seq<Value>, d: Draft, next: Draft, e: Draft,
    first: seq<Option<Word32>>, rest: seq<seq<Option<Word32>>>)
    requires items != []
    requires PassLands(parts, body, at, bindings + [items[0]], d, next, first)
    requires LoopLands(parts, body, at, bindings, items[1..], next, e, rest)
    ensures LoopLands(parts, body, at, bindings, items, d, e, [first] + rest)
  {
    hide Accounted, Makes, Accesses, SomePass;
    var landings: seq<seq<Option<Word32>>> := [first] + rest;
    forall k, site | 0 <= k < |landings| && 0 <= site < |body|
      ensures SiteLands(parts, body[site], at + LineIn(body, site), bindings + [items[k]], |d.ordered|, |e.ordered|,
                        e.ordered, landings[k][site])
      ensures k == 0 && landings[k][site].Some? ==> landings[k][site].value < |next.ordered|
      ensures k > 0 && landings[k][site].Some? ==> landings[k][site].value >= |next.ordered|
    {
      if k > 0 {
        assert landings[k] == rest[k - 1] && items[k] == items[1..][k - 1];
      }
    }
    forall j, k, site | 0 <= j < k < |landings| && 0 <= site < |body|
      ensures Ordered(landings[j][site], landings[k][site])
    {
      assert landings[k] == rest[k - 1];
      assert j > 0 ==> landings[j] == rest[j - 1];
    }
    forall p | |d.ordered| <= p < |e.ordered|
      ensures SomePass(parts, body, at, bindings, items, e.ordered[p], p, landings)
    {
      if p < |next.ordered| {
        assert e.ordered[p] == next.ordered[p];
      }
      PassesAdd(parts, body, at, bindings, items, e.ordered[p], p, first, rest);
    }
  }

  lemma {:induction false} PassesAdd(
    parts: Parts, body: seq<Clause>, at: nat, bindings: seq<Value>, items: seq<Value>, a: DeclaredAccess, p: nat,
    first: seq<Option<Word32>>, rest: seq<seq<Option<Word32>>>)
    requires items != [] && |rest| == |items| - 1
    requires Accounted(parts, body, at, bindings + [items[0]], a, p, first)
             || SomePass(parts, body, at, bindings, items[1..], a, p, rest)
    ensures SomePass(parts, body, at, bindings, items, a, p, [first] + rest)
  {
    hide Accounted;
    var landings := [first] + rest;
    if Accounted(parts, body, at, bindings + [items[0]], a, p, first) {
      assert landings[0] == first;
    } else {
      var k :| 0 <= k < |items[1..]| && Accounted(parts, body, at, bindings + [items[1..][k]], a, p, rest[k]);
      assert landings[k + 1] == rest[k] && items[k + 1] == items[1..][k];
    }
  }
}
