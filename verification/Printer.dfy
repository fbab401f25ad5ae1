/** The expression printer, and a parser that reads back exactly what it prints. */
module Printer {
  import opened Vocabulary
  import opened Syntax

  // How tightly each form binds.
  const SELECT: nat := 0
  const OR: nat := 1
  const AND: nat := 2
  const COMPARE: nat := 3
  const SUM: nat := 4
  const UNARY: nat := 5
  const ATOM: nat := 6

  /** A word of a rendered expression. A form that is no operator renders as one
      self-contained word, whatever it is made of. */
  datatype Token =
    | Name(form: Expr)
    | OrWord | AndWord | EqualSign | LessSign | InWord | PlusSign | Bang
    | IfWord | ThenWord | ElseWord
    | Open | Close

  function Strength(e: Expr): (s: nat)
    ensures s <= ATOM
  {
    match e
    case If(_, _, _) => SELECT
    case Or(_, _) => OR
    case And(_, _) => AND
    case Eq(_, _) => COMPARE
    case Lt(_, _) => COMPARE
    case Contains(_, _) => COMPARE
    case Add(_, _) => SUM
    case Not(_) => UNARY
    case _ => ATOM
  }

  /** One expression node, its operands parenthesized where they must be. */
  function Render(e: Expr): (t: seq<Token>)
    decreases e, 0
  {
    match e
    case If(cond, then_, otherwise) =>
      [IfWord] + Wrapped(cond, SELECT) + [ThenWord] + Wrapped(then_, SELECT) + [ElseWord] + Wrapped(otherwise, SELECT)
    case Or(left, right) => Wrapped(left, OR) + [OrWord] + Wrapped(right, OR + 1)
    case And(left, right) => Wrapped(left, AND) + [AndWord] + Wrapped(right, AND + 1)
    case Eq(left, right) => Wrapped(left, COMPARE + 1) + [EqualSign] + Wrapped(right, COMPARE + 1)
    case Lt(left, right) => Wrapped(left, COMPARE + 1) + [LessSign] + Wrapped(right, COMPARE + 1)
    case Contains(table, probe) => Wrapped(probe, COMPARE + 1) + [InWord] + Wrapped(table, COMPARE + 1)
    case Add(left, right) => Wrapped(left, SUM) + [PlusSign] + Wrapped(right, SUM + 1)
    case Not(inner) => [Bang] + Wrapped(inner, UNARY)
    case _ => [Name(e)]
  }

  /** An expression, parenthesized exactly where `outer` binds tighter than it does. */
  function Wrapped(e: Expr, outer: nat): seq<Token>
    decreases e, 1
  {
    if Strength(e) < outer then [Open] + Render(e) + [Close] else Render(e)
  }

  // ------------------------------------------------------------------- the parser

  datatype Parsed = Parsed(tree: Expr, rest: seq<Token>)

  /** The level an infix word joins at, or none where it joins nothing. */
  function JoinsAt(token: Token): nat {
    match token
    case OrWord => OR
    case AndWord => AND
    case EqualSign => COMPARE
    case LessSign => COMPARE
    case InWord => COMPARE
    case PlusSign => SUM
    case _ => SELECT
  }

  function Join(token: Token, left: Expr, right: Expr): Expr
    requires JoinsAt(token) != SELECT
  {
    match token
    case OrWord => Or(left, right)
    case AndWord => And(left, right)
    case EqualSign => Eq(left, right)
    case LessSign => Lt(left, right)
    case InWord => Contains(right, left)
    case PlusSign => Add(left, right)
  }

  /** Comparisons do not chain; the other joins group to the left. */
  predicate Chains(level: nat) { level != COMPARE }

  function Take(tokens: seq<Token>, token: Token): Option<seq<Token>> {
    if tokens != [] && tokens[0] == token then Some(tokens[1..]) else None
  }

  /** Read one expression whose outermost form binds at least as tightly as `level`. */
  function Parse(level: nat, tokens: seq<Token>): (p: Option<Parsed>)
    requires level <= ATOM
    ensures p.Some? ==> |p.value.rest| < |tokens|
    decreases |tokens|, 2 * (ATOM - level) + 1
  {
    if tokens == [] then None
    else if level == SELECT then
      if tokens[0] == IfWord then ParseSelect(tokens[1..]) else Parse(OR, tokens)
    else if level == UNARY then
      if tokens[0] != Bang then Parse(ATOM, tokens)
      else
        var inner := Parse(UNARY, tokens[1..]);
        if inner.None? then None else Some(Parsed(Not(inner.value.tree), inner.value.rest))
    else if level == ATOM then
      if tokens[0].Name? && Strength(tokens[0].form) == ATOM then Some(Parsed(tokens[0].form, tokens[1..]))
      else if tokens[0] != Open then None
      else ParseClosed(Parse(SELECT, tokens[1..]))
    else
      var first := Parse(level + 1, tokens);
      if first.None? then None else ParseMore(level, first.value.tree, first.value.rest)
  }

  function ParseClosed(inner: Option<Parsed>): (p: Option<Parsed>)
    ensures p.Some? ==> inner.Some? && |p.value.rest| < |inner.value.rest|
  {
    if inner.None? then None
    else
      var rest := Take(inner.value.rest, Close);
      if rest.None? then None else Some(Parsed(inner.value.tree, rest.value))
  }

  /** The joins at `level` that follow an operand already read. */
  function ParseMore(level: nat, left: Expr, tokens: seq<Token>): (p: Option<Parsed>)
    requires OR <= level <= SUM
    ensures p.Some? ==> |p.value.rest| <= |tokens|
    decreases |tokens|, 0
  {
    if tokens == [] || JoinsAt(tokens[0]) != level then Some(Parsed(left, tokens))
    else
      var right := Parse(level + 1, tokens[1..]);
      if right.None? then None
      else
        var joined := Join(tokens[0], left, right.value.tree);
        if Chains(level) then ParseMore(level, joined, right.value.rest) else Some(Parsed(joined, right.value.rest))
  }

  /** The rest of a selection, past its first word. */
  function ParseSelect(tokens: seq<Token>): (p: Option<Parsed>)
    ensures p.Some? ==> |p.value.rest| < |tokens|
    decreases |tokens|, 2 * ATOM + 2
  {
    var cond := Parse(SELECT, tokens);
    if cond.None? then None
    else
      var afterThen := Take(cond.value.rest, ThenWord);
      if afterThen.None? then None
      else
        var then_ := Parse(SELECT, afterThen.value);
        if then_.None? then None
        else
          var afterElse := Take(then_.value.rest, ElseWord);
          if afterElse.None? then None
          else
            var otherwise := Parse(SELECT, afterElse.value);
            if otherwise.None? then None
            else Some(Parsed(If(cond.value.tree, then_.value.tree, otherwise.value.tree), otherwise.value.rest))
  }

  // ------------------------------------------------------------- what is printed, read

  predicate Infix(e: Expr) { OR <= Strength(e) <= SUM }

  /** The operand an infix form prints first, and second, and the word between them. */
  function First(e: Expr): (r: Expr)
    requires Infix(e)
    ensures r < e
  {
    if e.Contains? then e.probe else e.left
  }

  function Second(e: Expr): (r: Expr)
    requires Infix(e)
    ensures r < e
  {
    if e.Contains? then e.table else e.right
  }

  function Sign(e: Expr): Token
    requires Infix(e)
  {
    match e
    case Or(_, _) => OrWord
    case And(_, _) => AndWord
    case Eq(_, _) => EqualSign
    case Lt(_, _) => LessSign
    case Contains(_, _) => InWord
    case Add(_, _) => PlusSign
  }

  /** The strength an infix form asks of its first operand. */
  function FirstLevel(level: nat): nat { if Chains(level) then level else level + 1 }

  lemma {:induction false} InfixPrints(e: Expr)
    requires Infix(e)
    ensures Render(e) == Wrapped(First(e), FirstLevel(Strength(e))) + [Sign(e)] + Wrapped(Second(e), Strength(e) + 1)
    ensures JoinsAt(Sign(e)) == Strength(e) && Join(Sign(e), First(e), Second(e)) == e
    ensures First(e) < e && Second(e) < e
  {}

  lemma {:induction false} InfixSplits(e: Expr, rest: seq<Token>)
    requires Infix(e)
    ensures Wrapped(e, Strength(e)) + rest ==
            Wrapped(First(e), FirstLevel(Strength(e))) + ([Sign(e)] + (Wrapped(Second(e), Strength(e) + 1) + rest))
    ensures Wrapped(e, Strength(e)) != []
  {
    hide Render, First, Second, Sign, Infix;
    InfixPrints(e);
    assert Wrapped(e, Strength(e)) == Render(e);
  }

  /** Only a selection opens with its own word. */
  lemma {:induction false} OpensAsItself(e: Expr)
    requires Strength(e) > SELECT
    ensures Render(e) != [] && Render(e)[0] != IfWord
    decreases e
  {
    if Infix(e) {
      InfixPrints(e);
      if Strength(First(e)) > SELECT {
        OpensAsItself(First(e));
      }
    }
  }

  /** Nothing after this point joins at `level` or tighter. */
  predicate Stops(level: nat, rest: seq<Token>) {
    rest == [] || JoinsAt(rest[0]) == SELECT || JoinsAt(rest[0]) < level
  }

  /** Where a level sits in reading `e`: first the levels up to its own, then past it through parentheses. */
  function Rank(e: Expr, level: nat): nat
    requires level <= ATOM
  {
    if level <= Strength(e) then Strength(e) - level else 8 + ATOM - level
  }

  /** Printing then parsing is the identity, at every strength and in front of anything that does
      not join on. */
  lemma {:induction false} ReadsBack(e: Expr, level: nat, rest: seq<Token>)
    requires level <= ATOM && Stops(level, rest)
    ensures Parse(level, Wrapped(e, level) + rest) == Some(Parsed(e, rest))
    decreases e, Rank(e, level), 1
  {
    if level == SELECT {
      if e.If? {
        SelectionReadsBack(e, rest);
      } else {
        OpensAsItself(e);
        assert (Render(e) + rest)[0] == Render(e)[0];
        ReadsBack(e, OR, rest);
      }
    } else if level == UNARY {
      UnaryReadsBack(e, rest);
    } else if level == ATOM {
      AtomReadsBack(e, rest);
    } else {
      SpineReadsBack(e, level, rest);
    }
  }

  lemma {:induction false} OperandThenJoins(level: nat, tokens: seq<Token>)
    requires OR <= level <= SUM && tokens != []
    ensures Parse(level, tokens) ==
            var first := Parse(level + 1, tokens);
            if first.None? then None else ParseMore(level, first.value.tree, first.value.rest)
  {}

  lemma {:induction false} JoinThenOperand(level: nat, left: Expr, sign: Token, more: seq<Token>, right: Parsed)
    requires OR <= level <= SUM && JoinsAt(sign) == level && Parse(level + 1, more) == Some(right)
    ensures ParseMore(level, left, [sign] + more) ==
            var joined := Join(sign, left, right.tree);
            if Chains(level) then ParseMore(level, joined, right.rest) else Some(Parsed(joined, right.rest))
  {
    hide Parse;
    assert ([sign] + more)[1..] == more;
  }

  lemma {:induction false} NoJoin(level: nat, left: Expr, rest: seq<Token>)
    requires OR <= level <= SUM && Stops(level, rest)
    ensures ParseMore(level, left, rest) == Some(Parsed(left, rest))
  {}

  /** An operand chain reads back to the point where its next join would be read. */
  lemma {:induction false} SpineReadsBack(e: Expr, level: nat, rest: seq<Token>)
    requires OR <= level <= SUM && Stops(level + 1, rest) && (Chains(level) || Stops(level, rest))
    ensures Chains(level) ==> Parse(level, Wrapped(e, level) + rest) == ParseMore(level, e, rest)
    ensures Stops(level, rest) ==> Parse(level, Wrapped(e, level) + rest) == Some(Parsed(e, rest))
    decreases e, Rank(e, level), 0
  {
    hide Render, Wrapped, Strength, Parse, ParseMore, First, Second, Sign, Join, JoinsAt;
    if Stops(level, rest) {
      NoJoin(level, e, rest);
    }
    if Strength(e) == level {
      InfixPrints(e);
      var first, second, sign := First(e), Second(e), Sign(e);
      var more := Wrapped(second, level + 1) + rest;
      InfixSplits(e, rest);
      ReadsBack(second, level + 1, rest);
      JoinThenOperand(level, first, sign, more, Parsed(second, rest));
      if Chains(level) {
        SpineReadsBack(first, level, [sign] + more);
      } else {
        ReadsBack(first, level + 1, [sign] + more);
        OperandThenJoins(level, Wrapped(e, level) + rest);
      }
    } else {
      WrappedAlike(e, level);
      ReadsBack(e, level + 1, rest);
      OperandThenJoins(level, Wrapped(e, level) + rest);
    }
  }

  /** A level that is not a form's own wraps it as the next one does. */
  lemma {:induction false} WrappedAlike(e: Expr, level: nat)
    requires Strength(e) != level
    ensures Wrapped(e, level) == Wrapped(e, level + 1) != []
  {
    if Strength(e) > SELECT {
      OpensAsItself(e);
    }
  }

  lemma {:induction false} SelectionReadsBack(e: Expr, rest: seq<Token>)
    requires e.If? && Stops(SELECT, rest)
    ensures Parse(SELECT, Render(e) + rest) == Some(Parsed(e, rest))
    decreases e, 0, 0
  {
    hide Wrapped, Render, Stops, ParseSelect;
    var last := Wrapped(e.otherwise, SELECT) + rest;
    var mid := Wrapped(e.then_, SELECT) + ([ElseWord] + last);
    var all := Wrapped(e.cond, SELECT) + ([ThenWord] + mid);
    SelectionPrints(e, rest, last, mid, all);
    KeywordsStop(mid, last);
    ReadsBack(e.cond, SELECT, [ThenWord] + mid);
    ReadsBack(e.then_, SELECT, [ElseWord] + last);
    ReadsBack(e.otherwise, SELECT, rest);
    SelectionParses(e, rest, last, mid, all);
    assert ([IfWord] + all)[0] == IfWord && ([IfWord] + all)[1..] == all;
  }

  lemma {:induction false} SelectionPrints(
      e: Expr, rest: seq<Token>, last: seq<Token>, mid: seq<Token>, all: seq<Token>)
    requires e.If?
    requires last == Wrapped(e.otherwise, SELECT) + rest
    requires mid == Wrapped(e.then_, SELECT) + ([ElseWord] + last)
    requires all == Wrapped(e.cond, SELECT) + ([ThenWord] + mid)
    ensures Render(e) + rest == [IfWord] + all
  {
    hide Wrapped;
    assert Render(e) == [IfWord] + Wrapped(e.cond, SELECT) + [ThenWord] + Wrapped(e.then_, SELECT) + [ElseWord]
                        + Wrapped(e.otherwise, SELECT);
  }

  lemma {:induction false} KeywordsStop(mid: seq<Token>, last: seq<Token>)
    ensures Stops(SELECT, [ThenWord] + mid) && Stops(SELECT, [ElseWord] + last)
  {}

  lemma {:induction false} SelectionParses(
      e: Expr, rest: seq<Token>, last: seq<Token>, mid: seq<Token>, all: seq<Token>)
    requires e.If?
    requires Parse(SELECT, all) == Some(Parsed(e.cond, [ThenWord] + mid))
    requires Parse(SELECT, mid) == Some(Parsed(e.then_, [ElseWord] + last))
    requires Parse(SELECT, last) == Some(Parsed(e.otherwise, rest))
    ensures ParseSelect(all) == Some(Parsed(e, rest))
  {
    hide Parse;
    assert ([ThenWord] + mid)[1..] == mid && ([ElseWord] + last)[1..] == last;
  }

  lemma {:induction false} NegationsPrint(e: Expr)
    requires e.Not?
    ensures Wrapped(e, UNARY) == [Bang] + Wrapped(e.inner, UNARY)
  {}

  lemma {:induction false} UnaryReadsBack(e: Expr, rest: seq<Token>)
    ensures Parse(UNARY, Wrapped(e, UNARY) + rest) == Some(Parsed(e, rest))
    decreases e, Rank(e, UNARY), 0
  {
    if e.Not? {
      ReadsBack(e.inner, UNARY, rest);
      NegationsPrint(e);
      assert (Wrapped(e, UNARY) + rest)[1..] == Wrapped(e.inner, UNARY) + rest;
    } else {
      hide Render;
      WrappedAlike(e, UNARY);
      ReadsBack(e, ATOM, rest);
    }
  }

  lemma {:induction false} AtomsAreWords(e: Expr)
    requires Strength(e) == ATOM
    ensures Render(e) == [Name(e)]
  {}

  lemma {:induction false} AtomReadsBack(e: Expr, rest: seq<Token>)
    ensures Parse(ATOM, Wrapped(e, ATOM) + rest) == Some(Parsed(e, rest))
    decreases e, Rank(e, ATOM), 0
  {
    hide Render;
    if Strength(e) == ATOM {
      assert Wrapped(e, ATOM) == [Name(e)] by { AtomsAreWords(e); }
      assert (Wrapped(e, ATOM) + rest)[1..] == rest;
    } else {
      var tail := [Close] + rest;
      assert Wrapped(e, ATOM) + rest == [Open] + (Render(e) + tail);
      assert ([Open] + (Render(e) + tail))[1..] == Render(e) + tail && Wrapped(e, SELECT) == Render(e);
      ReadsBack(e, SELECT, tail);
      assert tail[1..] == rest;
    }
  }

  /** The whole rendering parses to the tree it came from, so two trees never render alike. */
  lemma {:induction false} RenderingsAreUnambiguous(a: Expr, b: Expr)
    ensures Parse(SELECT, Wrapped(a, SELECT)) == Some(Parsed(a, []))
    ensures Wrapped(a, SELECT) == Wrapped(b, SELECT) <==> a == b
  {
    assert Wrapped(a, SELECT) + [] == Wrapped(a, SELECT) && Wrapped(b, SELECT) + [] == Wrapped(b, SELECT);
    ReadsBack(a, SELECT, []);
    ReadsBack(b, SELECT, []);
  }

  // -------------------------------------------------- no parenthesis that is not needed

  lemma {:induction false} WrappingGrows(e: Expr, level: nat, outer: nat)
    requires level <= outer
    ensures |Wrapped(e, level)| <= |Wrapped(e, outer)| <= |Render(e)| + 2
  {}

  /** No shorter run of words parses to the same tree: every parenthesis printed is needed. */
  lemma {:induction false} NothingParsesShorter(level: nat, tokens: seq<Token>)
    requires level <= ATOM && Parse(level, tokens).Some?
    ensures var p := Parse(level, tokens).value; |tokens| - |p.rest| >= |Wrapped(p.tree, level)|
    decreases |tokens|, 2 * (ATOM - level) + 1
  {
    var p := Parse(level, tokens).value;
    if level == SELECT {
      if tokens[0] == IfWord {
        NoSelectionParsesShorter(tokens[1..]);
      } else {
        NothingParsesShorter(OR, tokens);
        WrappingGrows(p.tree, SELECT, OR);
      }
    } else if level == UNARY {
      if tokens[0] == Bang {
        NothingParsesShorter(UNARY, tokens[1..]);
      } else {
        NothingParsesShorter(ATOM, tokens);
        WrappingGrows(p.tree, UNARY, ATOM);
      }
    } else if level == ATOM {
      if tokens[0] == Open {
        NothingParsesShorter(SELECT, tokens[1..]);
      }
    } else {
      var first := Parse(level + 1, tokens).value;
      NothingParsesShorter(level + 1, tokens);
      WrappingGrows(first.tree, FirstLevel(level), level + 1);
      NoJoinParsesShorter(level, first.tree, first.rest);
      WrappingGrows(first.tree, level, FirstLevel(level));
    }
  }

  lemma {:induction false} JoinPrints(token: Token, left: Expr, right: Expr)
    requires JoinsAt(token) != SELECT
    ensures var level := JoinsAt(token);
            |Wrapped(Join(token, left, right), level)| ==
                |Wrapped(left, FirstLevel(level))| + 1 + |Wrapped(right, level + 1)|
  {
    hide Render, Join, Strength;
    var joined, level := Join(token, left, right), JoinsAt(token);
    JoinIsInfix(token, left, right);
    InfixPrints(joined);
    var a, b := Wrapped(left, FirstLevel(level)), Wrapped(right, level + 1);
    assert Wrapped(joined, level) == a + [token] + b;
  }

  lemma {:induction false} JoinIsInfix(token: Token, left: Expr, right: Expr)
    requires JoinsAt(token) != SELECT
    ensures var joined := Join(token, left, right);
            Strength(joined) == JoinsAt(token) && First(joined) == left && Second(joined) == right
                && Sign(joined) == token
  {
    match token
    case OrWord =>
    case AndWord =>
    case EqualSign =>
    case LessSign =>
    case InWord =>
    case PlusSign =>
  }

  lemma {:induction false} NoJoinParsesShorter(level: nat, left: Expr, tokens: seq<Token>)
    requires OR <= level <= SUM && ParseMore(level, left, tokens).Some?
    ensures var p := ParseMore(level, left, tokens).value;
            |Wrapped(left, FirstLevel(level))| + |tokens| - |p.rest| >= |Wrapped(p.tree, level)|
    decreases |tokens|, 0
  {
    hide Wrapped, Join;
    WrappingGrows(left, level, FirstLevel(level));
    if tokens != [] && JoinsAt(tokens[0]) == level {
      NothingParsesShorter(level + 1, tokens[1..]);
      var right := Parse(level + 1, tokens[1..]).value;
      var joined := Join(tokens[0], left, right.tree);
      JoinPrints(tokens[0], left, right.tree);
      if Chains(level) {
        NoJoinParsesShorter(level, joined, right.rest);
      }
    }
  }

  lemma {:induction false} NoSelectionParsesShorter(tokens: seq<Token>)
    requires ParseSelect(tokens).Some?
    ensures var p := ParseSelect(tokens).value; 1 + |tokens| - |p.rest| >= |Wrapped(p.tree, SELECT)|
    decreases |tokens|, 2 * ATOM + 2
  {
    var cond := Parse(SELECT, tokens).value;
    NothingParsesShorter(SELECT, tokens);
    var then_ := Parse(SELECT, cond.rest[1..]).value;
    NothingParsesShorter(SELECT, cond.rest[1..]);
    NothingParsesShorter(SELECT, then_.rest[1..]);
  }
}
