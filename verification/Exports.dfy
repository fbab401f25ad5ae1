/** The exports line: an unbroken run of clause handles is said once. */
module Exports {
  import opened Vocabulary
  import opened Syntax
  import opened Numbering
  import opened Shapes

  /** One entry of the line: a run of lines, one line, or a parameter spelled its own way. */
  datatype Bound = Handles(first: Word32, last: Word32) | Handle(line: Word32) | Spelled(param: AbiParam)

  /** What one exported parameter binds, before any run is said once. */
  ghost function Named(effects: seq<Clause>, param: AbiParam): Bound {
    if param.HandleParam? && NamedLine(effects, param.clause, Some(param.site)).Some?
    then Handle(NamedLine(effects, param.clause, Some(param.site)).value)
    else Spelled(param)
  }

  ghost function AllNamed(effects: seq<Clause>, abi: seq<AbiParam>): seq<Bound> {
    seq(|abi|, i requires 0 <= i < |abi| => Named(effects, abi[i]))
  }

  /** Every line from `first` to `last`, each its own entry. */
  function Each(first: nat, last: nat): seq<Bound>
    requires first <= last <= MAX_WORD32
    decreases last - first
  {
    if first == last then [Handle(last)] else [Handle(first)] + Each(first + 1, last)
  }

  /** What an entry stands for. */
  function Expand(entry: Bound): seq<Bound> {
    if entry.Handles? && entry.first <= entry.last then Each(entry.first, entry.last) else [entry]
  }

  function ExpandAll(bound: seq<Bound>): seq<Bound> {
    if bound == [] then [] else Expand(bound[0]) + ExpandAll(bound[1..])
  }

  /** A run said once covers at least three lines. */
  predicate Worthwhile(entry: Bound) { entry.Handles? ==> entry.last - entry.first >= 2 }

  /** Lines counted up one at a time. */
  predicate Consecutive(run: seq<Word32>) { forall i :: 0 < i < |run| ==> Follows(run[i - 1], run[i]) }

  predicate Follows(line: int, next: int) { next == line + 1 }

  function Spell(run: seq<Word32>): seq<Bound> { seq(|run|, i requires 0 <= i < |run| => Handle(run[i])) }

  lemma {:induction false} ConsecutiveSpan(run: seq<Word32>, i: nat)
    requires Consecutive(run) && i < |run|
    ensures run[i] == run[0] + i
  {
    if i > 0 {
      ConsecutiveSpan(run, i - 1);
    }
  }

  lemma {:induction false} EachSpells(run: seq<Word32>)
    requires Consecutive(run) && run != []
    ensures run[0] <= run[|run| - 1] && Each(run[0], run[|run| - 1]) == Spell(run)
    decreases |run|
  {
    ConsecutiveSpan(run, |run| - 1);
    if |run| > 1 {
      EachSpells(run[1..]);
      assert Spell(run) == [Handle(run[0])] + Spell(run[1..]);
    }
  }

  lemma {:induction false} ExpandAllAppend(bound: seq<Bound>, more: seq<Bound>)
    ensures ExpandAll(bound + more) == ExpandAll(bound) + ExpandAll(more)
    decreases |bound|
  {
    if bound == [] {
      assert bound + more == more;
    } else {
      assert (bound + more)[1..] == bound[1..] + more;
      ExpandAllAppend(bound[1..], more);
    }
  }

  lemma {:induction false} ExpandOne(entry: Bound)
    ensures ExpandAll([entry]) == Expand(entry)
  {
    assert [entry][1..] == [];
  }

  lemma {:induction false} SpellExpands(run: seq<Word32>)
    ensures ExpandAll(Spell(run)) == Spell(run)
    decreases |run|
  {
    if run != [] {
      SpellExpands(run[1..]);
      assert Spell(run)[1..] == Spell(run[1..]);
    }
  }

  // ------------------------------------------------------------ runs said once

  /** Two entries of one run. */
  predicate Joins(a: Bound, b: Bound) { a.Handle? && b.Handle? && Follows(a.line, b.line) }

  /** The two sides of a cut no run crosses. */
  predicate Apart(a: seq<Bound>, b: seq<Bound>) { a == [] || b == [] || !Joins(a[|a| - 1], b[0]) }

  predicate IsRun(run: seq<Bound>) { forall i :: 0 < i < |run| ==> Joins(run[i - 1], run[i]) }

  /** How many entries the run a line opens with takes. */
  function RunLength(named: seq<Bound>): (n: nat)
    requires named != []
    ensures 0 < n <= |named| && IsRun(named[..n]) && Apart(named[..n], named[n..])
  {
    if |named| == 1 || !Joins(named[0], named[1]) then 1 else 1 + RunLength(named[1..])
  }

  /** A run of three or more is one entry, a shorter one its own entries. */
  function Said(run: seq<Bound>): seq<Bound> {
    if |run| >= 3 && run[0].Handle? && run[|run| - 1].Handle? then [Handles(run[0].line, run[|run| - 1].line)]
    else run
  }

  /** A line with each of its runs, taken as far as it goes, said once. */
  function Compress(named: seq<Bound>): seq<Bound>
    decreases |named|
  {
    if named == [] then [] else Said(named[..RunLength(named)]) + Compress(named[RunLength(named)..])
  }

  lemma {:induction false} RunsGoOn(run: seq<Bound>)
    requires run != [] && IsRun(run)
    ensures IsRun(run[1..])
  {
    var rest := run[1..];
    forall i | 0 < i < |rest| ensures Joins(rest[i - 1], rest[i]) {
      assert rest[i - 1] == run[i] && rest[i] == run[i + 1] && Joins(run[i], run[i + 1]);
    }
  }

  lemma {:induction false} RunLengthIs(named: seq<Bound>, n: nat)
    requires 0 < n <= |named| && IsRun(named[..n]) && Apart(named[..n], named[n..])
    ensures RunLength(named) == n
    decreases n
  {
    if n > 1 {
      assert named[..n][0] == named[0] && named[..n][1] == named[1] && Joins(named[..n][0], named[..n][1]);
      assert named[1..][..n - 1] == named[..n][1..] && named[1..][n - 1..] == named[n..];
      RunsGoOn(named[..n]);
      RunLengthIs(named[1..], n - 1);
    }
  }

  lemma {:induction false} CutsStay(a: seq<Bound>, b: seq<Bound>, n: nat)
    requires 0 < n <= |a| && Apart(a[..n], a[n..]) && Apart(a, b)
    ensures Apart(a[..n], a[n..] + b) && Apart(a[n..], b)
  {
    if n == |a| {
      assert a[..n] == a && a[n..] == [];
      assert a[n..] + b == b;
    }
  }

  /** A line compresses in two halves wherever no run crosses the cut. */
  lemma {:induction false} CompressSplits(a: seq<Bound>, b: seq<Bound>)
    requires Apart(a, b)
    ensures Compress(a + b) == Compress(a) + Compress(b)
    decreases |a|
  {
    hide RunLength, Said, IsRun, Joins;
    if a == [] {
      assert a + b == b;
    } else {
      var n, whole := RunLength(a), a + b;
      assert whole[..n] == a[..n] && whole[n..] == a[n..] + b;
      CutsStay(a, b, n);
      RunLengthIs(whole, n);
      CompressSplits(a[n..], b);
      assert Compress(whole) == Said(a[..n]) + Compress(a[n..] + b);
    }
  }

  lemma {:induction false} RunsCompress(run: seq<Bound>)
    requires run != [] && IsRun(run)
    ensures Compress(run) == Said(run)
  {
    assert run[..|run|] == run && run[|run|..] == [];
    RunLengthIs(run, |run|);
  }

  /** Every run of three or more, taken as far as it goes on both sides, is one entry of the line. */
  lemma {:induction false} MaximalRunsAreSaidOnce(before: seq<Bound>, run: seq<Bound>, after: seq<Bound>)
    requires |run| >= 3 && IsRun(run) && Apart(before, run) && Apart(run, after)
    ensures run[0].Handle? && run[|run| - 1].Handle?
    ensures Compress(before + run + after) ==
            Compress(before) + [Handles(run[0].line, run[|run| - 1].line)] + Compress(after)
  {
    assert Joins(run[0], run[1]) && Joins(run[|run| - 2], run[|run| - 1]);
    CompressSplits(before + run, after);
    CompressSplits(before, run);
    RunsCompress(run);
  }

  lemma {:induction false} SpelledRuns(run: seq<Word32>)
    requires Consecutive(run)
    ensures IsRun(Spell(run))
  {}

  /** What is said stands for the entries it is said of. */
  lemma {:induction false} SaidStandsFor(run: seq<Word32>)
    requires Consecutive(run)
    ensures ExpandAll(Said(Spell(run))) == Spell(run)
    ensures forall i :: 0 <= i < |Said(Spell(run))| ==> Worthwhile(Said(Spell(run))[i])
  {
    if |run| >= 3 {
      ConsecutiveSpan(run, |run| - 1);
      EachSpells(run);
      ExpandOne(Handles(run[0], run[|run| - 1]));
    } else {
      SpellExpands(run);
    }
  }

  /** A run of three or more becomes one entry, a shorter one stays spelled out. */
  method Flush(bound: seq<Bound>, run: seq<Word32>) returns (flushed: seq<Bound>)
    requires Consecutive(run)
    requires forall i :: 0 <= i < |bound| ==> Worthwhile(bound[i])
    ensures flushed == bound + Said(Spell(run))
    ensures ExpandAll(flushed) == ExpandAll(bound) + Spell(run)
    ensures forall i :: 0 <= i < |flushed| ==> Worthwhile(flushed[i])
  {
    hide ExpandAll, Consecutive, Worthwhile;
    SaidStandsFor(run);
    ExpandAllAppend(bound, Said(Spell(run)));
    if |run| >= 3 {
      flushed := bound + [Handles(run[0], run[|run| - 1])];
    } else {
      flushed := bound + Spell(run);
    }
  }

  /** What is said so far, `done` being said for good and the run still open. */
  ghost predicate Saying(done: seq<Bound>, bound: seq<Bound>, run: seq<Word32>) {
    bound == Compress(done) && Consecutive(run)
    && if run == [] then done == [] || !done[|done| - 1].Handle? else Apart(done, Spell(run))
  }

  /** Flushing the open run says everything so far. */
  lemma {:induction false} FlushSays(done: seq<Bound>, bound: seq<Bound>, run: seq<Word32>)
    requires Saying(done, bound, run)
    ensures Consecutive(run) && Compress(done + Spell(run)) == bound + Said(Spell(run))
  {
    hide Compress;
    CompressSplits(done, Spell(run));
    if run != [] {
      SpelledRuns(run);
      RunsCompress(Spell(run));
    } else {
      assert Compress(Spell(run)) == [] by { EmptyCompresses(); }
    }
  }

  lemma {:induction false} EmptyCompresses()
    ensures Compress([]) == []
  {}

  /** A parameter that is no handle closes the run before it. */
  lemma {:induction false} SpelledCloses(done: seq<Bound>, bound: seq<Bound>, param: AbiParam)
    requires bound == Compress(done)
    ensures Saying(done + [Spelled(param)], bound + [Spelled(param)], [])
  {
    hide Compress;
    CompressSplits(done, [Spelled(param)]);
    RunsCompress([Spelled(param)]);
  }

  /** A handle goes on with the open run, or opens one where no run is open. */
  lemma {:induction false} HandlesGoOn(done: seq<Bound>, bound: seq<Bound>, run: seq<Word32>, line: Word32)
    requires bound == Compress(done) && Consecutive(run)
    requires if run == [] then Apart(done, [Handle(line)])
             else Apart(done, Spell(run)) && Follows(run[|run| - 1], line)
    ensures Saying(done, bound, run + [line])
    ensures Spell(run + [line]) == Spell(run) + [Handle(line)]
  {
    hide Compress;
    assert Spell(run + [line])[0] == if run == [] then Handle(line) else Spell(run)[0];
  }

  lemma {:induction false} ClosedRuns(done: seq<Bound>, run: seq<Word32>, line: Word32)
    requires run == [] ==> done == [] || !done[|done| - 1].Handle?
    requires run != [] ==> !Follows(run[|run| - 1], line)
    ensures Apart(done + Spell(run), [Handle(line)])
  {
    if run != [] {
      assert (done + Spell(run))[|done + Spell(run)| - 1] == Handle(run[|run| - 1]);
    } else {
      assert done + Spell(run) == done;
    }
  }

  /** What one more parameter does to the line, given the line of the handle it is. */
  method NameOne(param: AbiParam, line: Option<Word32>, bound: seq<Bound>, run: seq<Word32>, ghost done: seq<Bound>)
    returns (bound': seq<Bound>, run': seq<Word32>, ghost done': seq<Bound>)
    requires Saying(done, bound, run)
    requires forall i :: 0 <= i < |bound| ==> Worthwhile(bound[i])
    ensures Saying(done', bound', run')
    ensures forall i :: 0 <= i < |bound'| ==> Worthwhile(bound'[i])
    ensures done' + Spell(run') ==
            done + Spell(run) + [if line.Some? then Handle(line.value) else Spelled(param)]
  {
    hide Compress, ExpandAll, Apart;
    bound', run', done' := bound, run, done;
    FlushSays(done, bound, run);
    if line.Some? {
      if run != [] && !Follows(run[|run| - 1], line.value) {
        bound' := Flush(bound, run);
        done' := done + Spell(run);
        run' := [];
        ClosedRuns(done, run, line.value);
      } else if run == [] {
        ClosedRuns(done, run, line.value);
        assert done + Spell(run) == done;
      }
      HandlesGoOn(done', bound', run', line.value);
      run' := run' + [line.value];
    } else {
      bound' := Flush(bound, run);
      done' := done + Spell(run);
      SpelledCloses(done', bound', param);
      bound' := bound' + [Spelled(param)];
      done' := done' + [Spelled(param)];
      run' := [];
    }
  }

  /** A compressed line stands for exactly the line it came from. */
  lemma {:induction false} CompressStandsFor(named: seq<Bound>)
    requires forall i :: 0 <= i < |named| ==> !named[i].Handles?
    ensures ExpandAll(Compress(named)) == named
    decreases |named|
  {
    hide RunLength, Said, ExpandAll, IsRun;
    if named == [] {
      NothingExpands();
    } else {
      var n := RunLength(named);
      var first, rest := named[..n], named[n..];
      RunStandsFor(first);
      CompressStandsFor(rest);
      ExpandAllAppend(Said(first), Compress(rest));
      assert named == first + rest;
    }
  }

  lemma {:induction false} NothingExpands()
    ensures ExpandAll([]) == []
  {}

  lemma {:induction false} RunStandsFor(run: seq<Bound>)
    requires run != [] && IsRun(run) && !run[0].Handles?
    ensures ExpandAll(Said(run)) == run
  {
    if |run| == 1 {
      assert run == [run[0]];
      ExpandOne(run[0]);
    } else {
      forall i | 0 <= i < |run| ensures run[i].Handle? {
        assert if i > 0 then Joins(run[i - 1], run[i]) else Joins(run[i], run[i + 1]);
      }
      var lines: seq<Word32> := seq(|run|, i requires 0 <= i < |run| => run[i].line);
      assert Spell(lines) == run;
      forall i | 0 < i < |lines| ensures Follows(lines[i - 1], lines[i]) {
        assert Joins(run[i - 1], run[i]);
      }
      SaidStandsFor(lines);
    }
  }

  /** The exports line says exactly the parameters declared, in their order, each handle by the
      line its clause is listed at and each run of three or more, as far as it goes, once. */
  method NameExports(abi: seq<AbiParam>, effects: seq<Clause>) returns (bound: seq<Bound>)
    ensures bound == Compress(AllNamed(effects, abi))
    ensures ExpandAll(bound) == AllNamed(effects, abi)
    ensures forall i :: 0 <= i < |bound| ==> Worthwhile(bound[i])
  {
    hide NamedLine, Compress, ExpandAll, Saying;
    bound := [];
    var run: seq<Word32> := [];
    ghost var done: seq<Bound> := [];
    NothingSaid();
    for i := 0 to |abi|
      invariant Saying(done, bound, run)
      invariant done + Spell(run) == AllNamed(effects, abi[..i])
      invariant forall j :: 0 <= j < |bound| ==> Worthwhile(bound[j])
    {
      assert AllNamed(effects, abi[..i + 1]) == AllNamed(effects, abi[..i]) + [Named(effects, abi[i])];
      var line: Option<Word32> := None;
      if abi[i].HandleParam? {
        line := NameLine(effects, abi[i].clause, Some(abi[i].site));
      }
      bound, run, done := NameOne(abi[i], line, bound, run, done);
    }
    assert abi[..|abi|] == abi;
    FlushSays(done, bound, run);
    bound := Flush(bound, run);
    CompressStandsFor(AllNamed(effects, abi));
  }

  lemma {:induction false} NothingSaid()
    ensures Saying([], [], [])
  {}
}
