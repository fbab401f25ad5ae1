/** The views of a whole declaration line up, clause by clause and element by element. */
module Alignment {
  import opened Vocabulary
  import opened Syntax
  import opened Clauses
  import opened Numbering
  import opened Firings
  import opened Views

  /** The rows a top-level loop files: one for each clause of its body, all over the same
      elements. An entry is there exactly where its clause is an access whose guard holds over
      that element, and points inside the loop's own span, at the access the line makes over
      it, further on than the element before's; and every access of the span is one element's,
      at an entry over it unless a loop nested in the body declared it. */
  ghost predicate RowsAlign(parts: Parts, body: seq<Clause>, at: nat, from: nat, to: nat,
                            ordered: seq<DeclaredAccess>, items: seq<Value>, rows: Rows)
  {
    && from <= to <= |ordered|
    && RowsAscend(|body|, |items|, rows)
    && (forall site, k :: 0 <= site < |body| && 0 <= k < |items| ==>
          EntryLands(parts, body, at, site, items[k], from, to, ordered, rows[site][k]))
    && (forall p :: from <= p < to ==> SomeElement(parts, body, at, items, ordered[p], rows, p))
  }

  /** The entry clause `site` of the body left over `item`. */
  ghost predicate EntryLands(parts: Parts, body: seq<Clause>, at: nat, site: nat, item: Value, from: nat, to: nat,
                             ordered: seq<DeclaredAccess>, entry: Option<Word32>)
    requires site < |body|
  {
    SiteLands(parts, body[site], at + LineIn(body, site), [item], from, to, ordered, entry)
  }

  /** One row a site and one entry an element, each row's entries further on than those before. */
  ghost predicate RowsAscend(sites: nat, elements: nat, rows: Rows) {
    && |rows| == sites
    && (forall site :: 0 <= site < sites ==> |rows[site]| == elements)
    && (forall site, j, k :: 0 <= site < sites && 0 <= j < k < elements ==> Ordered(rows[site][j], rows[site][k]))
  }

  /** The access at `p` is one element's: a nested loop's over it, or the one a row points at. */
  ghost predicate SomeElement(parts: Parts, body: seq<Clause>, at: nat, items: seq<Value>, a: DeclaredAccess,
                              rows: Rows, p: nat)
  {
    exists k :: 0 <= k < |items| && (Nested(parts, body, at, [items[k]], a) || Pointed(rows, k, p))
  }

  /** Some row's entry over element `k` is `p`. */
  ghost predicate Pointed(rows: Rows, k: nat, p: nat) {
    exists site :: 0 <= site < |rows| && k < |rows[site]| && rows[site][k].Some? && rows[site][k].value == p
  }

  lemma {:induction false} RowsStay(
    parts: Parts, body: seq<Clause>, at: nat, from: nat, to: nat, ordered: seq<DeclaredAccess>,
    longer: seq<DeclaredAccess>, items: seq<Value>, rows: Rows)
    requires RowsAlign(parts, body, at, from, to, ordered, items, rows) && ordered <= longer
    ensures RowsAlign(parts, body, at, from, to, longer, items, rows)
  {
    hide SomeElement, Makes, Accesses;
    forall site, k | 0 <= site < |body| && 0 <= k < |items|
      ensures EntryLands(parts, body, at, site, items[k], from, to, longer, rows[site][k])
    {
      assert EntryLands(parts, body, at, site, items[k], from, to, ordered, rows[site][k]);
    }
    forall p | from <= p < to ensures SomeElement(parts, body, at, items, longer[p], rows, p) {
      assert longer[p] == ordered[p];
    }
  }

  lemma {:induction false} LandingsMakeRows(
    parts: Parts, body: seq<Clause>, at: nat, items: seq<Value>, d: Draft, e: Draft, landings: seq<seq<Option<Word32>>>)
    requires LoopLands(parts, body, at, [], items, d, e, landings)
    ensures RowsAlign(parts, body, at, |d.ordered|, |e.ordered|, e.ordered, items, Rowed(body, landings))
  {
    hide Nested, Makes, Accesses;
    var rows := Rowed(body, landings);
    forall site, k | 0 <= site < |body| && 0 <= k < |landings| ensures rows[site][k] == landings[k][site] {}
    forall site, k | 0 <= site < |body| && 0 <= k < |items|
      ensures EntryLands(parts, body, at, site, items[k], |d.ordered|, |e.ordered|, e.ordered, rows[site][k])
    {
      assert rows[site][k] == landings[k][site] && [] + [items[k]] == [items[k]];
    }
    forall p | |d.ordered| <= p < |e.ordered|
      ensures SomeElement(parts, body, at, items, e.ordered[p], rows, p)
    {
      assert SomePass(parts, body, at, [], items, e.ordered[p], p, landings);
      var k :| 0 <= k < |items| && Accounted(parts, body, at, [] + [items[k]], e.ordered[p], p, landings[k]);
      assert [] + [items[k]] == [items[k]];
      if PointedAt(landings[k], p) {
        var site :| 0 <= site < |landings[k]| && landings[k][site].Some? && landings[k][site].value == p;
        assert rows[site][k] == landings[k][site];
        assert Pointed(rows, k, p);
      }
    }
  }

  /** The elements a top-level loop maps: none where its guard did not fire. */
  ghost function Elements(c: Clause, parts: Parts, taken: bool): seq<Value>
    requires c.ForEach?
  {
    var items := parts.items(c.list, []).result;
    if taken && items.Ok? then items.value else []
  }

  /** What a top-level clause adds to every view. */
  ghost predicate Added(c: Clause, parts: Parts, index: Word32, at: nat, d: Draft, e: Draft) {
    && d.ordered <= e.ordered
    && |e.taken| == |d.taken| + 1 && d.taken <= e.taken
    && var taken := e.taken[|d.taken|];
    && Taken(c.guard, parts, []).result == Ok(taken)
    && (!c.ForEach? ==> e.expansions == d.expansions)
    && (c.ForEach? ==>
          && e.expansions.Keys == d.expansions.Keys + {index}
          && (forall i <- d.expansions :: i != index ==> e.expansions[i] == d.expansions[i])
          && RowsAlign(parts, c.body, at + 1, |d.ordered|, |e.ordered|, e.ordered, Elements(c, parts, taken),
                       e.expansions[index]))
  }

  lemma {:induction false} TopClausesAdd(c: Clause, parts: Parts, index: Word32, at: nat, d: Draft)
    requires Sound(d) && d.preorder == Stamp(at)
    requires RunClause(c, parts, [], 0, index, d).result.Ok?
    ensures var e := RunClause(c, parts, [], 0, index, d).result.value;
            Added(c, parts, index, at, d, e) && Fires(parts, FiringsOf(c, parts, [], at), d, e)
  {
    hide Fires, Sound, FiringsOf;
    ClausesFire(c, parts, [], 0, index, d, at);
    FiresMore(parts, FiringsOf(c, parts, [], at), d, RunClause(c, parts, [], 0, index, d).result.value);
    var taken := Taken(c.guard, parts, []).result.value;
    var entered := d.(preorder := SaturatingAdd32(d.preorder, 1), taken := d.taken + [taken]);
    if c.ForEach? {
      LoopsAdd(c, parts, index, at, d, entered, taken);
    } else if taken {
      FiringOnce(c, parts, [], 0, index, at, entered);
    }
  }

  /** A top-level loop's rows, before they are filed. */
  lemma {:induction false} LoopsAlign(
      items: seq<Value>, body: seq<Clause>, parts: Parts, index: Word32, d: Draft, at: nat)
    requires Sound(d)
    requires RunItems(items, body, parts, [], 0, index, Stamp(at), d).result.Ok?
    ensures var loop := RunItems(items, body, parts, [], 0, index, Stamp(at), d).result.value;
            && d.ordered <= loop.draft.ordered
            && loop.draft.taken == d.taken && loop.draft.expansions == d.expansions
            && RowsAlign(parts, body, at, |d.ordered|, |loop.draft.ordered|, loop.draft.ordered, items,
                         Rowed(body, loop.landings))
  {
    var loop := RunItems(items, body, parts, [], 0, index, Stamp(at), d).result.value;
    LoopsKeepSound(items, body, parts, [], 0, index, Stamp(at), d);
    LoopsLand(items, body, parts, [], 0, index, d, at);
    LoopsFire(items, body, parts, [], 0, index, d, at);
    LandingsMakeRows(parts, body, at, items, d, loop.draft, loop.landings);
  }

  lemma {:induction false} TakenLoopsAdd(c: Clause, parts: Parts, index: Word32, at: nat, d: Draft, entered: Draft)
    requires c.ForEach? && Sound(entered) && entered.preorder == Stamp(at + 1)
    requires entered.ordered == d.ordered && entered.expansions == d.expansions && entered.taken == d.taken + [true]
    requires Taken(c.guard, parts, []).result == Ok(true)
    requires Declare(c, parts, [], 0, index, Stamp(at), entered).result.Ok?
    ensures Added(c, parts, index, at, d, Declare(c, parts, [], 0, index, Stamp(at), entered).result.value)
  {
    hide RowsAlign, RunItems, Sound;
    var items := parts.items(c.list, []).result.value;
    LoopsAlign(items, c.body, parts, index, entered, at + 1);
  }

  lemma {:induction false} NoRows(parts: Parts, body: seq<Clause>, at: nat, ordered: seq<DeclaredAccess>)
    ensures RowsAlign(parts, body, at, |ordered|, |ordered|, ordered, [], seq(|body|, _ => []))
  {}

  lemma {:induction false} LoopsAdd(
      c: Clause, parts: Parts, index: Word32, at: nat, d: Draft, entered: Draft, taken: bool)
    requires c.ForEach? && Sound(d) && d.preorder == Stamp(at)
    requires RunClause(c, parts, [], 0, index, d).result.Ok?
    requires Taken(c.guard, parts, []).result == Ok(taken)
    requires entered == d.(preorder := SaturatingAdd32(d.preorder, 1), taken := d.taken + [taken])
    ensures Added(c, parts, index, at, d, RunClause(c, parts, [], 0, index, d).result.value)
  {
    hide RowsAlign, Declare;
    if taken {
      assert Sound(entered) && entered.preorder == Stamp(at + 1);
      TakenLoopsAdd(c, parts, index, at, d, entered);
    } else {
      NoRows(parts, c.body, at + 1, d.ordered);
    }
  }

  // --------------------------------------------------------------- every clause at once

  function End(spans: seq<Span>, i: nat): nat
    requires i <= |spans|
  {
    if i == 0 then 0 else spans[i - 1].End()
  }

  /** A span holds the accesses its clause's firings make, in their order, and no others. */
  ghost predicate SpanFires(parts: Parts, c: Clause, at: nat, span: seq<DeclaredAccess>) {
    var fs := FiringsOf(c, parts, [], at);
    fs.Ok? && MadeAll(parts, fs.value).Ok? && span == MadeAll(parts, fs.value).value.accesses
  }

  /** Top-level clause `i` in every view. */
  ghost predicate ClauseAligned(clauses: seq<Clause>, parts: Parts, i: nat, d: Draft, spans: seq<Span>)
    requires i < |clauses| && i < |spans| && i < |d.taken|
  {
    var c, taken, start, len, at := clauses[i], d.taken[i], spans[i].start, spans[i].len, |Lines(clauses[..i])|;
    && start == End(spans, i)
    && spans[i].End() <= |d.ordered|
    && Taken(c.guard, parts, []).result == Ok(taken)
    && SpanFires(parts, c, at, d.ordered[start..spans[i].End()])
    && (!c.ForEach? ==> len == if Accesses(parts, c, []) then 1 else 0)
    && (c.ForEach? ==>
          && i in d.expansions
          && RowsAlign(parts, c.body, at + 1, start, spans[i].End(), d.ordered, Elements(c, parts, taken),
                       d.expansions[i]))
  }

  /** The first `n` clauses fill every view: one span and one verdict each, the spans end to
      end over the whole order, and rows for exactly the loops. */
  ghost predicate Aligned(clauses: seq<Clause>, n: nat, parts: Parts, d: Draft, spans: seq<Span>) {
    && n <= |clauses|
    && |spans| == |d.taken| == n
    && End(spans, n) == |d.ordered|
    && (forall i :: 0 <= i < n ==> ClauseAligned(clauses, parts, i, d, spans))
    && (forall i <- d.expansions :: i < n && clauses[i].ForEach?)
  }

  lemma {:induction false} AlignedLast(clauses: seq<Clause>, n: nat, parts: Parts, d: Draft, e: Draft, spans: seq<Span>)
    requires n < |clauses| && |spans| == n + 1 && |d.taken| == n && n <= MAX_WORD32
    requires spans[n].start == |d.ordered| == End(spans, n) && spans[n].End() == |e.ordered|
    requires Added(clauses[n], parts, n, |Lines(clauses[..n])|, d, e)
    requires Fires(parts, FiringsOf(clauses[n], parts, [], |Lines(clauses[..n])|), d, e)
    ensures ClauseAligned(clauses, parts, n, e, spans)
  {
    hide RowsAlign, MadeAll, FiringsOf;
    var c, at := clauses[n], |Lines(clauses[..n])|;
    var made := MadeAll(parts, FiringsOf(c, parts, [], at).value).value.accesses;
    assert e.ordered[|d.ordered|..|e.ordered|] == made;
    if !c.ForEach? {
      PlainClausesMake(c, parts, [], at);
    }
  }

  lemma {:induction false} AlignedNext(clauses: seq<Clause>, n: nat, parts: Parts, d: Draft, spans: seq<Span>, e: Draft)
    requires Aligned(clauses, n, parts, d, spans) && n < |clauses| && n <= MAX_WORD32
    requires |e.ordered| <= MAX_WORD32
    requires Added(clauses[n], parts, n, |Lines(clauses[..n])|, d, e)
    requires Fires(parts, FiringsOf(clauses[n], parts, [], |Lines(clauses[..n])|), d, e)
    ensures Aligned(clauses, n + 1, parts, e, spans + [Span(|d.ordered|, |e.ordered| - |d.ordered|)])
  {
    var spans' := spans + [Span(|d.ordered|, |e.ordered| - |d.ordered|)];
    forall i | 0 <= i < n + 1 ensures ClauseAligned(clauses, parts, i, e, spans') {
      if i < n {
        assert ClauseAligned(clauses, parts, i, d, spans);
        AlignedStays(clauses, parts, i, d, spans, e, spans');
      } else {
        AlignedLast(clauses, n, parts, d, e, spans');
      }
    }
  }

  lemma {:induction false} AlignedStays(clauses: seq<Clause>, parts: Parts, i: nat,
                                        d: Draft, spans: seq<Span>, e: Draft, spans': seq<Span>)
    requires i < |clauses| && i < |spans| && i < |d.taken|
    requires ClauseAligned(clauses, parts, i, d, spans)
    requires d.ordered <= e.ordered && d.taken <= e.taken && spans <= spans'
    requires i in d.expansions ==> i in e.expansions && e.expansions[i] == d.expansions[i]
    ensures ClauseAligned(clauses, parts, i, e, spans')
  {
    var c, start, end := clauses[i], spans[i].start, spans[i].End();
    if c.ForEach? {
      RowsStay(parts, c.body, |Lines(clauses[..i])| + 1, start, end, d.ordered, e.ordered,
               Elements(c, parts, d.taken[i]), d.expansions[i]);
    }
  }

  lemma {:induction false} StepsAlign(clauses: seq<Clause>, n: nat, parts: Parts, d: Draft, spans: seq<Span>)
    requires n < |clauses| && n <= MAX_WORD32
    requires Sound(d) && d.preorder == Stamp(|Lines(clauses[..n])|)
    requires Aligned(clauses, n, parts, d, spans)
    requires RunClause(clauses[n], parts, [], 0, n, d).result.Ok?
    ensures var e := RunClause(clauses[n], parts, [], 0, n, d).result.value;
            && Sound(e) && e.preorder == Stamp(|Lines(clauses[..n + 1])|) && |d.ordered| <= |e.ordered|
            && Aligned(clauses, n + 1, parts, e, spans + [Span(|d.ordered|, |e.ordered| - |d.ordered|)])
  {
    hide RunClause, Aligned, Sound, Added, Fires, FiringsOf, Lines;
    var at := |Lines(clauses[..n])|;
    var e := RunClause(clauses[n], parts, [], 0, n, d).result.value;
    ClausesKeepSound(clauses[n], parts, [], 0, n, d);
    SoundIsBounded(e);
    ClausesFire(clauses[n], parts, [], 0, n, d, at);
    FiresMore(parts, FiringsOf(clauses[n], parts, [], at), d, e);
    TopClausesAdd(clauses[n], parts, n, at, d);
    AlignedNext(clauses, n, parts, d, spans, e);
    LinesOfPrefix(clauses, n);
  }

  lemma {:induction false} RunsStep(clauses: seq<Clause>, n: nat, parts: Parts, d: Draft, spans: seq<Span>)
    requires n < |clauses| && RunFrom(clauses[n..], n, parts, d, spans).result.Ok?
    ensures n <= MAX_WORD32 && RunClause(clauses[n], parts, [], 0, n, d).result.Ok?
    ensures var e := RunClause(clauses[n], parts, [], 0, n, d).result.value;
            && |d.ordered| <= MAX_WORD32 && 0 <= |e.ordered| - |d.ordered| <= MAX_WORD32
            && RunFrom(clauses[n..], n, parts, d, spans).result ==
               RunFrom(clauses[n + 1..], n + 1, parts, e, spans + [Span(|d.ordered|, |e.ordered| - |d.ordered|)]).result
  {
    assert clauses[n..][0] == clauses[n] && clauses[n..][1..] == clauses[n + 1..];
  }

  lemma {:induction false} RunsAlign(clauses: seq<Clause>, n: nat, parts: Parts, d: Draft, spans: seq<Span>)
    requires n <= |clauses|
    requires Sound(d) && d.preorder == Stamp(|Lines(clauses[..n])|)
    requires Aligned(clauses, n, parts, d, spans)
    ensures var r := RunFrom(clauses[n..], n, parts, d, spans).result;
            r.Ok? ==> Aligned(clauses, |clauses|, parts, r.value.draft, r.value.spans) && Sound(r.value.draft)
    decreases |clauses| - n
  {
    var r := RunFrom(clauses[n..], n, parts, d, spans).result;
    if n < |clauses| && r.Ok? {
      RunsStep(clauses, n, parts, d, spans);
      var e := RunClause(clauses[n], parts, [], 0, n, d).result.value;
      StepsAlign(clauses, n, parts, d, spans);
      RunsAlign(clauses, n + 1, parts, e, spans + [Span(|d.ordered|, |e.ordered| - |d.ordered|)]);
    }
  }

  /** Every declaration that evaluates is aligned in every view, within its caps, and its set
      is its own accesses folded. */
  lemma {:induction false} DeclarationsAlign(clauses: seq<Clause>, parts: Parts)
    ensures var r := Declares(clauses, parts).result;
            r.Ok? ==> Aligned(clauses, |clauses|, parts, r.value.draft, r.value.spans) && Sound(r.value.draft)
  {
    assert clauses[0..] == clauses;
    assert clauses[..0] == [];
    RunsAlign(clauses, 0, parts, BLANK, []);
  }

  // -------------------------------------------------------------------- one numbering

  /** Every access of a declaration is what one line of its listing makes, over the elements the
      loops around that line had mapped, and carries the line's number. */
  lemma {:induction false} AccessesAreListed(clauses: seq<Clause>, parts: Parts, d: Declaration, p: nat)
    returns (f: Firing)
    requires Declares(clauses, parts).result == Ok(d) && p < |d.draft.ordered|
    ensures FiringsIn(clauses, parts, [], 0).Ok? && f in FiringsIn(clauses, parts, [], 0).value
    ensures Makes(parts, f, d.draft.ordered[p])
    ensures f.line < |Lines(clauses)| && Lines(clauses)[f.line] == f.clause
    ensures d.draft.ordered[p].clause == Stamp(f.line)
  {
    hide Declares, FiringsIn, MadeAll;
    DeclarationsAreTheirFirings(clauses, parts, d);
    var fs := FiringsIn(clauses, parts, [], 0).value;
    AccessesAreMade(parts, fs, d.draft.ordered[p]);
    f :| f in fs && Makes(parts, f, d.draft.ordered[p]);
    FiringsInNameLines(clauses, parts, [], 0);
  }

  /** The number stamped on a top-level access is the line a binding of its clause names. */
  lemma {:induction false} AccessesCarryTheirLine(
      clauses: seq<Clause>, parts: Parts, d: Draft, spans: seq<Span>, i: nat)
    requires Aligned(clauses, |clauses|, parts, d, spans)
    requires i < |clauses| && clauses[i].Access? && d.taken[i]
    ensures spans[i].start < |d.ordered|
    ensures Some(d.ordered[spans[i].start].clause) == NamedLine(clauses, i, None)
  {
    hide MadeAll;
    assert ClauseAligned(clauses, parts, i, d, spans);
    PlainClausesMake(clauses[i], parts, [], |Lines(clauses[..i])|);
  }

  /** The number stamped on an element's access is the line a binding of its body line names. */
  lemma {:induction false} ElementsCarryTheirLine(
    clauses: seq<Clause>, parts: Parts, d: Draft, spans: seq<Span>, i: nat, site: nat, k: nat)
    requires Aligned(clauses, |clauses|, parts, d, spans)
    requires i < |clauses| && clauses[i].ForEach? && i in d.expansions
    requires site < |d.expansions[i]| && k < |d.expansions[i][site]| && d.expansions[i][site][k].Some?
    ensures d.expansions[i][site][k].value < |d.ordered|
    ensures Some(d.ordered[d.expansions[i][site][k].value].clause) == NamedLine(clauses, i, Some(site))
  {
    hide RowsAlign, Makes;
    assert ClauseAligned(clauses, parts, i, d, spans);
    var at := |Lines(clauses[..i])| + 1;
    RowEntry(parts, clauses[i].body, at, spans[i].start, spans[i].End(), d.ordered,
             Elements(clauses[i], parts, d.taken[i]), d.expansions[i], site, k);
  }

  lemma {:induction false} RowEntry(parts: Parts, body: seq<Clause>, at: nat, from: nat, to: nat,
                                    ordered: seq<DeclaredAccess>, items: seq<Value>, rows: Rows, site: nat, k: nat)
    requires RowsAlign(parts, body, at, from, to, ordered, items, rows)
    requires site < |rows| && k < |rows[site]| && rows[site][k].Some?
    ensures |rows| == |body| && rows[site][k].value < |ordered|
    ensures ordered[rows[site][k].value].clause == Stamp(at + LineIn(body, site))
  {
    hide Makes, Accesses, SomeElement;
    assert EntryLands(parts, body, at, site, items[k], from, to, ordered, rows[site][k]);
    AccessesAreStamped(parts, Firing(at + LineIn(body, site), body[site], [items[k]]), ordered[rows[site][k].value]);
  }
}
