/** One numbering: the evaluator's stamps, the listing's lines and the lines bindings name. */
module Numbering {
  import opened Vocabulary
  import opened Syntax
  import opened Clauses

  lemma {:induction false} LinesAppend(a: seq<Clause>, b: seq<Clause>)
    ensures Lines(a + b) == Lines(a) + Lines(b)
    decreases |a|
  {
    if a == [] {
      assert a + b == b;
    } else {
      assert (a + b)[1..] == a[1..] + b;
      LinesAppend(a[1..], b);
    }
  }

  lemma {:induction false} LinesOfOne(clause: Clause)
    ensures Lines([clause]) == LinesOf(clause)
  {
    assert [clause][1..] == [];
    assert LinesOf(clause) + [] == LinesOf(clause);
  }

  lemma {:induction false} LinesUpTo(before: seq<Clause>, clause: Clause, upTo: seq<Clause>)
    requires upTo == before + [clause]
    ensures Lines(upTo) == Lines(before) + LinesOf(clause)
  {
    LinesOfOne(clause);
    LinesAppend(before, [clause]);
  }

  lemma {:induction false} LinesPast(upTo: seq<Clause>, after: seq<Clause>, whole: seq<Clause>)
    requires whole == upTo + after
    ensures Lines(whole) == Lines(upTo) + Lines(after)
  {
    LinesAppend(upTo, after);
  }

  /** The lines of a prefix are the first lines of the whole. */
  lemma {:induction false} LinesOfPrefix(clauses: seq<Clause>, i: nat)
    requires i < |clauses|
    ensures Lines(clauses[..i + 1]) == Lines(clauses[..i]) + LinesOf(clauses[i])
    ensures Lines(clauses) == Lines(clauses[..i]) + LinesOf(clauses[i]) + Lines(clauses[i + 1..])
  {
    LinesUpTo(clauses[..i], clauses[i], clauses[..i + 1]);
    LinesPast(clauses[..i + 1], clauses[i + 1..], clauses);
  }

  /** The saturating count is the count of lines, stopped at the top of its width. */
  lemma {:induction false} PreorderLenCountsLines(clauses: seq<Clause>)
    ensures PreorderLen(clauses) == Stamp(|Lines(clauses)|)
    decreases clauses
  {
    if clauses != [] {
      PreorderLenOfCountsLines(clauses[0]);
      PreorderLenCountsLines(clauses[1..]);
    }
  }

  lemma {:induction false} PreorderLenOfCountsLines(clause: Clause)
    ensures PreorderLenOf(clause) == Stamp(|LinesOf(clause)|)
    decreases clause
  {
    if clause.ForEach? {
      PreorderLenCountsLines(clause.body);
    }
  }

  // ------------------------------------------------------------ the walk over a clause

  /** A clause and every clause beneath it, over an explicit stack. */
  method WalkClause(clause: Clause) returns (lines: seq<Clause>)
    ensures lines == LinesOf(clause)
  {
    lines := [];
    var stack := [clause];
    assert Lines(stack) == LinesOf(clause) + Lines([clause][1..]);
    while stack != []
      invariant lines + Lines(stack) == LinesOf(clause)
      decreases |Lines(stack)|
    {
      var top := stack[0];
      assert Lines(stack) == LinesOf(top) + Lines(stack[1..]);
      stack := stack[1..];
      lines := lines + [top];
      if top.ForEach? {
        LinesAppend(top.body, stack);
        stack := top.body + stack;
      }
    }
  }

  // ------------------------------------------------------------------ the listing

  /** One rendered line: its number and the clause it renders. */
  datatype ListedLine = ListedLine(number: nat, clause: Clause)

  /** What a listing of `lines` starting at `first` must print. */
  function Numbered(lines: seq<Clause>, first: nat): seq<ListedLine> {
    seq(|lines|, i requires 0 <= i < |lines| => ListedLine(first + i, lines[i]))
  }

  lemma {:induction false} NumberedAppend(a: seq<Clause>, b: seq<Clause>, first: nat)
    ensures Numbered(a + b, first) == Numbered(a, first) + Numbered(b, first + |a|)
  {}

  /** One clause and, for a loop, its body, advancing the number line by line. */
  method ListClause(clause: Clause, first: nat) returns (out: seq<ListedLine>, next: nat)
    ensures out == Numbered(LinesOf(clause), first)
    ensures next == first + |LinesOf(clause)|
    decreases clause, 0
  {
    next := first + 1;
    out := [ListedLine(first, clause)];
    if clause.ForEach? {
      var nested;
      nested, next := ListBody(clause.body, next);
      NumberedAppend([clause], Lines(clause.body), first);
      out := out + nested;
    }
  }

  method ListBody(clauses: seq<Clause>, first: nat) returns (out: seq<ListedLine>, next: nat)
    ensures out == Numbered(Lines(clauses), first)
    ensures next == first + |Lines(clauses)|
    decreases clauses, 0
  {
    out, next := [], first;
    for i := 0 to |clauses|
      invariant out == Numbered(Lines(clauses[..i]), first)
      invariant next == first + |Lines(clauses[..i])|
    {
      var lines;
      var was := next;
      lines, next := ListClause(clauses[i], next);
      LinesOfPrefix(clauses, i);
      NumberedAppend(Lines(clauses[..i]), LinesOf(clauses[i]), first);
      out := out + lines;
    }
    assert clauses[..|clauses|] == clauses;
  }

  // ------------------------------------------------------- the line a binding names

  /** The line of top-level clause `index`, or of line `site` of its loop body. */
  ghost function LineNamed(clauses: seq<Clause>, index: nat, site: Option<nat>): Option<nat> {
    if index >= |clauses| then None
    else
      var at := |Lines(clauses[..index])|;
      if site.None? then Some(at)
      else if !clauses[index].ForEach? then if site.value == 0 then Some(at) else None
      else if site.value >= |clauses[index].body| then None
      else Some(at + 1 + |Lines(clauses[index].body[..site.value])|)
  }

  /** That line as it is kept, where the coordinate is one the clauses hold. */
  ghost function NamedLine(clauses: seq<Clause>, index: nat, site: Option<nat>): Option<Word32> {
    var line := LineNamed(clauses, index, site);
    if line.None? then None else Some(Stamp(line.value))
  }

  /** The running count a listing gives a binding's line. */
  method NameLine(clauses: seq<Clause>, index: Word32, site: Option<Word32>) returns (line: Option<Word32>)
    ensures line == NamedLine(clauses, index, if site.None? then None else Some(site.value))
  {
    var number: Word32 := 0;
    for position := 0 to |clauses|
      invariant number == Stamp(|Lines(clauses[..position])|)
      invariant position <= index
    {
      var clause := clauses[position];
      if position == index {
        if site.None? {
          return Some(number);
        }
        if !clause.ForEach? {
          return if site.value == 0 then Some(number) else None;
        }
        if site.value >= |clause.body| {
          return None;
        }
        PreorderLenCountsLines(clause.body[..site.value]);
        return Some(SaturatingAdd32(SaturatingAdd32(number, 1), PreorderLen(clause.body[..site.value])));
      }
      number := SaturatingAdd32(number, 1);
      if clause.ForEach? {
        PreorderLenCountsLines(clause.body);
        number := SaturatingAdd32(number, PreorderLen(clause.body));
      }
      LinesOfPrefix(clauses, position);
    }
    line := None;
  }

  /** The line a binding names is the clause it means, wherever the coordinate is held. */
  lemma {:induction false} LinesNamedAreTheirs(clauses: seq<Clause>, index: nat, site: Option<nat>)
    requires LineNamed(clauses, index, site).Some?
    ensures var line := LineNamed(clauses, index, site).value;
            && line < |Lines(clauses)|
            && Lines(clauses)[line] ==
               if site.Some? && clauses[index].ForEach? then clauses[index].body[site.value] else clauses[index]
  {
    LinesOfPrefix(clauses, index);
    if site.Some? && clauses[index].ForEach? {
      LinesOfPrefix(clauses[index].body, site.value);
    }
  }

  /** A site on a clause that is no loop names a line exactly where it is zero, and then the
      clause's own: the one a binding of the whole clause names. */
  lemma {:induction false} SitesOfPlainClauses(clauses: seq<Clause>, index: nat, site: nat)
    requires index < |clauses| && !clauses[index].ForEach?
    ensures NamedLine(clauses, index, Some(site)).Some? <==> site == 0
    ensures site == 0 ==> NamedLine(clauses, index, Some(site)) == NamedLine(clauses, index, None)
    ensures site == 0 ==> var line := LineNamed(clauses, index, Some(site)).value;
                          line < |Lines(clauses)| && Lines(clauses)[line] == clauses[index]
  {
    if site == 0 {
      LinesNamedAreTheirs(clauses, index, Some(site));
    }
  }
}
