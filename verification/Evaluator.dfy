/** The evaluator as it runs: recursive over terms, charging shared meters as it goes. */
module Evaluator {
  import opened Vocabulary
  import opened Syntax
  import opened Evaluation
  import opened Metering
  import opened Meaning

  // -------------------------------------------------------------- value walks

  lemma {:induction false} WalkedAllAppend(a: seq<Value>, b: seq<Value>)
    ensures WalkedAll(a + b) == WalkedAll(a) + WalkedAll(b)
    decreases |a|
  {
    if a == [] {
      assert a + b == b;
    } else {
      assert (a + b)[1..] == a[1..] + b;
      WalkedAllAppend(a[1..], b);
    }
  }

  /** What a walk over a value visits, over an explicit stack. */
  method WalkValue(value: Value) returns (total: nat)
    ensures total == Walked(value)
  {
    total := 0;
    var stack := [value];
    assert WalkedAll(stack) == Walked(value);
    while stack != []
      invariant total + WalkedAll(stack) == Walked(value)
      decreases WalkedAll(stack)
    {
      var top := stack[0];
      stack := stack[1..];
      total := total + 1;
      if top.VBytes? {
        total := total + |top.bytes| / BYTES_PER_WORK_UNIT;
      } else {
        WalkedAllAppend(top.Parts(), stack);
        assert top.Parts() == [] ==> top.Parts() + stack == stack;
        stack := top.Parts() + stack;
      }
    }
  }

  predicate AnyHoldsBucket(vs: seq<Value>) { exists i :: 0 <= i < |vs| && HoldsBucket(vs[i]) }

  lemma {:induction false} AnyHoldsBucketAppend(a: seq<Value>, b: seq<Value>)
    ensures AnyHoldsBucket(a + b) <==> AnyHoldsBucket(a) || AnyHoldsBucket(b)
  {
    var joined := a + b;
    if i :| 0 <= i < |a| && HoldsBucket(a[i]) {
      assert HoldsBucket(joined[i]);
    }
    if i :| 0 <= i < |b| && HoldsBucket(b[i]) {
      assert HoldsBucket(joined[|a| + i]);
    }
  }

  /** Refuse a bucket wherever it sits, over an explicit stack. */
  method RejectBucket(value: Value) returns (r: Outcome<()>)
    ensures r == if HoldsBucket(value) then Err(TypeMismatch(ComparableKind, BucketKind)) else Ok(())
  {
    var stack := [value];
    while stack != []
      invariant AnyHoldsBucket(stack) <==> HoldsBucket(value)
      decreases WalkedAll(stack)
    {
      var top := stack[0];
      assert stack == [top] + stack[1..] && Walked(top) >= 1 + WalkedAll(top.Parts());
      AnyHoldsBucketAppend([top], stack[1..]);
      AnyHoldsBucketAppend(top.Parts(), stack[1..]);
      WalkedAllAppend(top.Parts(), stack[1..]);
      if top.VBucket? {
        assert HoldsBucket([top][0]);
        return Err(TypeMismatch(ComparableKind, BucketKind));
      }
      assert HoldsBucket(top) <==> AnyHoldsBucket(top.Parts());
      stack := top.Parts() + stack[1..];
    }
    r := Ok(());
  }

  // -------------------------------------------------------------- small loops

  /** Charge the walk over a value. */
  method SpendWalk(value: Value, budget: Budget) returns (r: Outcome<()>)
    modifies budget`spent, budget.envelope`spent
    ensures Settles(old(budget.State()), Priced(Ok(()), Walked(value)), r, budget.State())
  {
    var total := WalkValue(value);
    r := budget.Spend(total);
  }

  /** A part copied out of its container, charged for the copy. */
  method CopyOut(part: Outcome<Value>, budget: Budget) returns (r: Outcome<Value>)
    modifies budget`spent, budget.envelope`spent
    ensures Settles(old(budget.State()), CopiedOut(part), r, budget.State())
  {
    var value :- part;
    var _ :- SpendWalk(value, budget);
    r := Ok(value);
  }

  /** A value the caller keeps, charged for the copy. */
  method Force(held: Answer, budget: Budget) returns (r: Outcome<Value>)
    modifies budget`spent, budget.envelope`spent
    ensures Settles(old(budget.State()), Forced(held), r, budget.State())
  {
    if held.borrowed {
      var _ :- SpendWalk(held.value, budget);
    }
    r := Ok(held.value);
  }

  /** The scan under both readings of a table, each comparison charged. */
  method FindPair(pairs: seq<Value>, key: Value, budget: Budget) returns (r: Outcome<Option<Value>>)
    modifies budget`spent, budget.envelope`spent
    ensures Settles(old(budget.State()), Find(pairs, key), r, budget.State())
  {
    var probe := WalkValue(key);
    ghost var start := budget.State();
    ghost var done := 0;
    for i := 0 to |pairs|
      invariant Settles(start, Priced(Ok(()), done), Ok(()), budget.State())
      invariant Find(pairs, key) == Find(pairs[i..], key).Plus(done)
    {
      assert pairs[i..][0] == pairs[i] && pairs[i..][1..] == pairs[i + 1..];
      var _ :- budget.Spend(probe);
      done := done + probe;
      if !(pairs[i].VTuple? && |pairs[i].fields| == 2) {
        return Err(LookupNotPairs);
      }
      if pairs[i].fields[0] == key {
        return Ok(Some(pairs[i].fields[1]));
      }
    }
    r := Ok(None);
  }

  /** A well-formed id set: every element a word, each distinct, within the edge's cap. */
  method ReadIds(values: seq<Value>) returns (r: Outcome<seq<Word64>>)
    ensures r == IdsAfter(values, [])
  {
    var ids: seq<Word64> := [];
    for i := 0 to |values|
      invariant IdsAfter(values, []) == IdsAfter(values[i..], ids)
    {
      assert values[i..][1..] == values[i + 1..];
      var id :- AsU64(values[i]);
      if id in ids {
        return Err(DuplicateId(id));
      }
      ids := ids + [id];
    }
    if |ids| > MAX_IDS_PER_EDGE {
      return Err(TooManyIds(|ids|));
    }
    r := Ok(ids);
  }

  /** Structural equality, refusing a bucket on either side. */
  method Compare(left: Value, right: Value) returns (r: Outcome<Value>)
    ensures r == Equals(left, right)
  {
    var _ :- RejectBucket(left);
    var _ :- RejectBucket(right);
    if left.Kind() != right.Kind() {
      return Err(TypeMismatch(left.Kind(), right.Kind()));
    }
    r := Ok(VBool(left == right));
  }

  // -------------------------------------------------------------- expressions

  /** One term, refused past the nesting bound and charged before anything is read. */
  method EvalExpr(e: Expr, env: Inputs, bindings: seq<Value>, depth: nat, budget: Budget) returns (r: Outcome<Answer>)
    modifies budget`spent, budget`evaluated, budget.envelope`spent
    ensures Settles(old(budget.State()), Eval(e, env, bindings, depth), r, budget.State())
    ensures r.Ok? ==> Means(e, env, Inside(bindings)) == Some(r.value.value)
    decreases e, 4
  {
    hide Answered, Means, Tall, Price, InPlace;
    EvalFinds(e, env, bindings, depth);
    if depth > MAX_EXPR_DEPTH {
      return Err(ExpressionTooDeep);
    }
    var _ :- budget.Spend(Toll(e));
    budget.evaluated := budget.evaluated + 1;
    r := AnswerTerm(e, env, bindings, depth + 1, budget);
  }

  /** A handed value is answered in place, and a selection forwards the one arm it takes. */
  method AnswerTerm(e: Expr, env: Inputs, bindings: seq<Value>, depth: nat, budget: Budget) returns (r: Outcome<Answer>)
    modifies budget`spent, budget`evaluated, budget.envelope`spent
    ensures Settles(old(budget.State()), Answered(e, env, bindings, depth), r, budget.State())
    decreases e, 3
  {
    hide Eval, Build;
    if Hands(e) {
      var value :- HandedOut(e, env, bindings);
      return Ok(Answer(value, true));
    }
    if e.If? {
      var taken :- EvalFlag(e.cond, env, bindings, depth, budget);
      r := EvalExpr(if taken then e.then_ else e.otherwise, env, bindings, depth, budget);
    } else {
      r := OwnValue(e, env, bindings, depth, budget);
    }
  }

  /** A term that built a value pays for what it built. */
  method OwnValue(e: Expr, env: Inputs, bindings: seq<Value>, depth: nat, budget: Budget) returns (r: Outcome<Answer>)
    requires Builds(e)
    modifies budget`spent, budget`evaluated, budget.envelope`spent
    ensures Settles(old(budget.State()), Owned(Build(e, env, bindings, depth)), r, budget.State())
    decreases e, 2
  {
    var built :- BuildValue(e, env, bindings, depth, budget);
    var _ :- SpendWalk(built, budget);
    r := Ok(Answer(built, false));
  }

  method EvalFlag(e: Expr, env: Inputs, bindings: seq<Value>, depth: nat, budget: Budget) returns (r: Outcome<bool>)
    modifies budget`spent, budget`evaluated, budget.envelope`spent
    ensures Settles(old(budget.State()), Flag(Eval(e, env, bindings, depth)), r, budget.State())
    decreases e, 5
  {
    var held :- EvalExpr(e, env, bindings, depth, budget);
    r := AsBool(held.value);
  }

  method EvalWord(e: Expr, env: Inputs, bindings: seq<Value>, depth: nat, budget: Budget) returns (r: Outcome<Word64>)
    modifies budget`spent, budget`evaluated, budget.envelope`spent
    ensures Settles(old(budget.State()), Word(Eval(e, env, bindings, depth)), r, budget.State())
    decreases e, 5
  {
    var held :- EvalExpr(e, env, bindings, depth, budget);
    r := AsU64(held.value);
  }

  method EvalOwner(e: Expr, env: Inputs, bindings: seq<Value>, depth: nat, budget: Budget) returns (r: Outcome<Address>)
    modifies budget`spent, budget`evaluated, budget.envelope`spent
    ensures Settles(old(budget.State()), Owner(Eval(e, env, bindings, depth)), r, budget.State())
    decreases e, 5
  {
    var held :- EvalExpr(e, env, bindings, depth, budget);
    r := AsAddress(held.value);
  }

  method EvalList(e: Expr, env: Inputs, bindings: seq<Value>, depth: nat, budget: Budget)
    returns (r: Outcome<seq<Value>>)
    modifies budget`spent, budget`evaluated, budget.envelope`spent
    ensures Settles(old(budget.State()), Listed(Eval(e, env, bindings, depth)), r, budget.State())
    decreases e, 5
  {
    var held :- EvalExpr(e, env, bindings, depth, budget);
    r := AsList(held.value);
  }

  /** What a building term answers, by the family it belongs to. */
  method BuildValue(e: Expr, env: Inputs, bindings: seq<Value>, depth: nat, budget: Budget) returns (r: Outcome<Value>)
    requires Builds(e)
    modifies budget`spent, budget`evaluated, budget.envelope`spent
    ensures Settles(old(budget.State()), Build(e, env, bindings, depth), r, budget.State())
    decreases e, 1
  {
    if Reads(e) {
      r := ReadValue(e, env, bindings, depth, budget);
    } else if Projects(e) {
      r := PartValue(e, env, bindings, depth, budget);
    } else if Gathers(e) {
      r := GatherValue(e, env, bindings, depth, budget);
    } else if Scans(e) {
      r := ScanValue(e, env, bindings, depth, budget);
    } else if Computes(e) {
      r := ComputeValue(e, env, bindings, depth, budget);
    } else if Decides(e) {
      r := DecideValue(e, env, bindings, depth, budget);
    } else if e.Eq? {
      r := EqualValue(e, env, bindings, depth, budget);
    } else if e.Pack? {
      r := PackValue(e, env, bindings, depth, budget);
    } else if e.NfBucket? {
      r := EdgeValue(e, env, bindings, depth, budget);
    } else if e.SelfResource? {
      r := IssueValue(e, env, bindings, depth, budget);
    } else if e.ChildKey? {
      r := ChildValue(e, env, bindings, depth, budget);
    } else if e.OrderKey? {
      r := OrderValue(e, env, bindings, depth, budget);
    } else {
      r := Drawn(e, env);
    }
  }

  method ReadValue(e: Expr, env: Inputs, bindings: seq<Value>, depth: nat, budget: Budget) returns (r: Outcome<Value>)
    requires Reads(e)
    modifies budget`spent, budget`evaluated, budget.envelope`spent
    ensures Settles(old(budget.State()), Build(e, env, bindings, depth), r, budget.State())
    decreases e, 0, 1
  {
    var held :- EvalExpr(e.inner, env, bindings, depth, budget);
    r := ReadOf(e, held.value);
  }

  /** The projections read their operand in place and copy out the one part they answer. */
  method PartValue(e: Expr, env: Inputs, bindings: seq<Value>, depth: nat, budget: Budget) returns (r: Outcome<Value>)
    requires Projects(e)
    modifies budget`spent, budget`evaluated, budget.envelope`spent
    ensures Settles(old(budget.State()), Build(e, env, bindings, depth), r, budget.State())
    decreases e, 0, 1
  {
    hide Eval;
    var held :- EvalExpr(e.inner, env, bindings, depth, budget);
    r := CopyOut(PartOf(e, held.value), budget);
  }

  method GatherValue(e: Expr, env: Inputs, bindings: seq<Value>, depth: nat, budget: Budget) returns (r: Outcome<Value>)
    requires Gathers(e)
    modifies budget`spent, budget`evaluated, budget.envelope`spent
    ensures Settles(old(budget.State()), Build(e, env, bindings, depth), r, budget.State())
    decreases e, 0, 1
  {
    var values :- KeepAll(e.elements, env, bindings, depth, budget);
    r := Ok(GatherOf(e, values));
  }

  method ScanValue(e: Expr, env: Inputs, bindings: seq<Value>, depth: nat, budget: Budget) returns (r: Outcome<Value>)
    requires Scans(e)
    modifies budget`spent, budget`evaluated, budget.envelope`spent
    ensures Settles(old(budget.State()), Build(e, env, bindings, depth), r, budget.State())
    decreases e, 0, 1
  {
    hide Eval;
    var hit :- ScanTable(e, env, bindings, depth, budget);
    if e.Contains? {
      return Ok(VBool(hit.Some?));
    }
    r := CopyOut(if hit.Some? then Ok(hit.value) else Err(LookupMiss), budget);
  }

  method ComputeValue(e: Expr, env: Inputs, bindings: seq<Value>, depth: nat, budget: Budget)
    returns (r: Outcome<Value>)
    requires Computes(e)
    modifies budget`spent, budget`evaluated, budget.envelope`spent
    ensures Settles(old(budget.State()), Build(e, env, bindings, depth), r, budget.State())
    decreases e, 0, 1
  {
    var pair :- EvalOperands(e, env, bindings, depth, budget);
    r := ComputeOf(e, pair.0, pair.1);
  }

  /** `and` and `or` stop at a left operand that settles them. */
  method DecideValue(e: Expr, env: Inputs, bindings: seq<Value>, depth: nat, budget: Budget) returns (r: Outcome<Value>)
    requires Decides(e)
    modifies budget`spent, budget`evaluated, budget.envelope`spent
    ensures Settles(old(budget.State()),
                    ShortFrom(Eval(e.left, env, bindings, depth), Eval(e.right, env, bindings, depth), e.Or?),
                    r, budget.State())
    decreases e, 0, 1
  {
    hide Eval;
    var short := e.Or?;
    var flag :- EvalFlag(e.left, env, bindings, depth, budget);
    if flag == short {
      return Ok(VBool(short));
    }
    r := FlagValue(e.right, env, bindings, depth, budget);
  }

  method FlagValue(e: Expr, env: Inputs, bindings: seq<Value>, depth: nat, budget: Budget) returns (r: Outcome<Value>)
    modifies budget`spent, budget`evaluated, budget.envelope`spent
    ensures Settles(old(budget.State()), FlagFrom(Eval(e, env, bindings, depth)), r, budget.State())
    decreases e, 6
  {
    var flag :- EvalFlag(e, env, bindings, depth, budget);
    r := Ok(VBool(flag));
  }

  method EqualValue(e: Expr, env: Inputs, bindings: seq<Value>, depth: nat, budget: Budget) returns (r: Outcome<Value>)
    requires e.Eq?
    modifies budget`spent, budget`evaluated, budget.envelope`spent
    ensures Settles(old(budget.State()), Build(e, env, bindings, depth), r, budget.State())
    decreases e, 0, 1
  {
    hide Eval;
    var pair :- EvalOperands(e, env, bindings, depth, budget);
    var first := WalkValue(pair.0);
    var second := WalkValue(pair.1);
    var _ :- budget.Spend(first + second);
    r := Compare(pair.0, pair.1);
  }

  method PackValue(e: Expr, env: Inputs, bindings: seq<Value>, depth: nat, budget: Budget) returns (r: Outcome<Value>)
    requires e.Pack?
    modifies budget`spent, budget`evaluated, budget.envelope`spent
    ensures Settles(old(budget.State()), Build(e, env, bindings, depth), r, budget.State())
    decreases e, 0, 1
  {
    hide Eval;
    var hi :- EvalWord(e.high, env, bindings, depth, budget);
    var lo :- EvalWord(e.low, env, bindings, depth, budget);
    r := Ok(VU128(PackWords(hi, lo)));
  }

  method EdgeValue(e: Expr, env: Inputs, bindings: seq<Value>, depth: nat, budget: Budget) returns (r: Outcome<Value>)
    requires e.NfBucket?
    modifies budget`spent, budget`evaluated, budget.envelope`spent
    ensures Settles(old(budget.State()), Build(e, env, bindings, depth), r, budget.State())
    decreases e, 0, 1
  {
    var address :- EvalOwner(e.resource, env, bindings, depth, budget);
    r := EdgeCarrying(address, e.ids, env, bindings, depth, budget);
  }

  method IssueValue(e: Expr, env: Inputs, bindings: seq<Value>, depth: nat, budget: Budget) returns (r: Outcome<Value>)
    requires e.SelfResource?
    modifies budget`spent, budget`evaluated, budget.envelope`spent
    ensures Settles(old(budget.State()), Build(e, env, bindings, depth), r, budget.State())
    decreases e, 0, 1
  {
    hide EvalMaterial;
    var parts :- EncodeMaterial(e.material, env, bindings, depth, budget);
    r := IssuedAddress(env, e.kind, parts, e.grants);
  }

  method ChildValue(e: Expr, env: Inputs, bindings: seq<Value>, depth: nat, budget: Budget) returns (r: Outcome<Value>)
    requires e.ChildKey?
    modifies budget`spent, budget`evaluated, budget.envelope`spent
    ensures Settles(old(budget.State()), Build(e, env, bindings, depth), r, budget.State())
    decreases e, 0, 1
  {
    hide Eval;
    var owner :- EvalOwner(e.owner, env, bindings, depth, budget);
    r := ChildUnder(e, owner, env, bindings, depth, budget);
  }

  method OrderValue(e: Expr, env: Inputs, bindings: seq<Value>, depth: nat, budget: Budget) returns (r: Outcome<Value>)
    requires e.OrderKey?
    modifies budget`spent, budget`evaluated, budget.envelope`spent
    ensures Settles(old(budget.State()), Build(e, env, bindings, depth), r, budget.State())
    decreases e, 0, 1
  {
    hide Eval, EvalMaterial;
    var owner :- EvalOwner(e.owner, env, bindings, depth, budget);
    var parts :- EncodeMaterial(e.material, env, bindings, depth, budget);
    r := Ok(VU128(env.seam.OrderOf(owner, e.fixed, parts)));
  }

  method EvalOperands(e: Expr, env: Inputs, bindings: seq<Value>, depth: nat, budget: Budget)
    returns (r: Outcome<(Value, Value)>)
    requires Computes(e) || e.Eq?
    modifies budget`spent, budget`evaluated, budget.envelope`spent
    ensures Settles(old(budget.State()),
                    Operands(Eval(e.left, env, bindings, depth), Eval(e.right, env, bindings, depth)),
                    r, budget.State())
    decreases e, 0, 0
  {
    hide Eval;
    var left :- EvalExpr(e.left, env, bindings, depth, budget);
    var right :- EvalExpr(e.right, env, bindings, depth, budget);
    r := Ok((left.value, right.value));
  }

  /** The table first, then the probe, then the scan. */
  method ScanTable(e: Expr, env: Inputs, bindings: seq<Value>, depth: nat, budget: Budget)
    returns (r: Outcome<Option<Value>>)
    requires Scans(e)
    modifies budget`spent, budget`evaluated, budget.envelope`spent
    ensures Settles(old(budget.State()),
                    Scanned(Eval(e.table, env, bindings, depth), Eval(e.probe, env, bindings, depth)),
                    r, budget.State())
    decreases e, 0, 0
  {
    hide Eval;
    var pairs :- EvalList(e.table, env, bindings, depth, budget);
    r := ProbeTable(pairs, e.probe, env, bindings, depth, budget);
  }

  method ProbeTable(pairs: seq<Value>, probe: Expr, env: Inputs, bindings: seq<Value>, depth: nat, budget: Budget)
    returns (r: Outcome<Option<Value>>)
    modifies budget`spent, budget`evaluated, budget.envelope`spent
    ensures Settles(old(budget.State()), Probed(pairs, Eval(probe, env, bindings, depth)), r, budget.State())
    decreases probe, 5
  {
    hide Eval;
    var key :- EvalExpr(probe, env, bindings, depth, budget);
    r := FindPair(pairs, key.value, budget);
  }

  method EdgeCarrying(resource: Address, ids: Expr, env: Inputs, bindings: seq<Value>, depth: nat, budget: Budget)
    returns (r: Outcome<Value>)
    modifies budget`spent, budget`evaluated, budget.envelope`spent
    ensures Settles(old(budget.State()), EdgeOf(resource, Eval(ids, env, bindings, depth)), r, budget.State())
    decreases ids, 6
  {
    hide Eval;
    var carried :- AsResource(resource);
    var elements :- EvalList(ids, env, bindings, depth, budget);
    var named :- ReadIds(elements);
    r := Ok(VBucket(carried, InstanceEdge(named)));
  }

  method ChildUnder(e: Expr, owner: Address, env: Inputs, bindings: seq<Value>, depth: nat, budget: Budget)
    returns (r: Outcome<Value>)
    requires e.ChildKey?
    modifies budget`spent, budget`evaluated, budget.envelope`spent
    ensures Settles(old(budget.State()),
                    KeyUnder(env, owner, EvalSlot(e.slot, true, env, bindings, depth),
                             EvalMaterial(e.material, env, bindings, depth)),
                    r, budget.State())
    decreases e, 0, 0
  {
    hide Eval;
    var under :- SlotUnder(e.slot, true, env, bindings, depth, budget);
    var parts :- EncodeMaterial(e.material, env, bindings, depth, budget);
    r := Ok(VKey(env.seam.ChildKeyOf(owner, under, parts)));
  }

  /** The slot a key is derived under, held to the value band where an argument names it. */
  method SlotUnder(slot: SlotRef, point: bool, env: Inputs, bindings: seq<Value>, depth: nat, budget: Budget)
    returns (r: Outcome<Word16>)
    modifies budget`spent, budget`evaluated, budget.envelope`spent
    ensures Settles(old(budget.State()), EvalSlot(slot, point, env, bindings, depth), r, budget.State())
    decreases slot, 0
  {
    if slot.Fixed? {
      return Ok(slot.slot);
    }
    var named :- EvalWord(slot.named, env, bindings, depth, budget);
    r := ReachableSlot(named, point);
  }

  /** A sequence verdict with what was already gathered, and paid, in front of it. */
  ghost function Gathered<T>(done: seq<T>, units: nat, rest: Priced<seq<T>>): Priced<seq<T>> {
    if rest.result.Ok? then Priced(Ok(done + rest.result.value), units + rest.units) else rest.Plus(units)
  }

  lemma {:induction false} GatheredNone<T>(rest: Priced<seq<T>>)
    ensures Gathered([], 0, rest) == rest
  {
    if rest.result.Ok? {
      assert [] + rest.result.value == rest.result.value;
    }
  }

  lemma {:induction false} GatheredAll<T>(done: seq<T>, units: nat)
    ensures Gathered(done, units, Priced(Ok([]), 0)) == Priced(Ok(done), units)
  {
    assert done + [] == done;
  }

  lemma {:induction false} GatheredOne<T>(done: seq<T>, units: nat, first: Priced<T>, rest: Priced<seq<T>>)
    ensures first.result.Err? ==>
            Gathered(done, units, Then(first, rest)) == Priced(Err(first.result.error), units + first.units)
    ensures first.result.Ok? ==>
              Gathered(done, units, Then(first, rest)) ==
                  Gathered(done + [first.result.value], units + first.units, rest)
  {
    if first.result.Ok? && rest.result.Ok? {
      assert done + ([first.result.value] + rest.result.value) == done + [first.result.value] + rest.result.value;
    }
  }

  lemma {:induction false} MaterialEnds(material: seq<Expr>, env: Inputs, bindings: seq<Value>, depth: nat)
    ensures EvalMaterial(material[|material|..], env, bindings, depth) == Priced(Ok([]), 0)
  {}

  lemma {:induction false} MaterialSteps(material: seq<Expr>, i: nat, env: Inputs, bindings: seq<Value>, depth: nat)
    requires i < |material|
    ensures EvalMaterial(material[i..], env, bindings, depth) ==
            Then(Encoded(env, Eval(material[i], env, bindings, depth)),
                 EvalMaterial(material[i + 1..], env, bindings, depth))
  {
    assert material[i..][0] == material[i] && material[i..][1..] == material[i + 1..];
  }

  /** Material evaluated and encoded in order, each encoding walk charged. */
  method EncodeMaterial(material: seq<Expr>, env: Inputs, bindings: seq<Value>, depth: nat, budget: Budget)
    returns (r: Outcome<seq<Bytes>>)
    modifies budget`spent, budget`evaluated, budget.envelope`spent
    ensures Settles(old(budget.State()), EvalMaterial(material, env, bindings, depth), r, budget.State())
    decreases material, 0
  {
    hide Eval, EvalMaterial;
    var gathered: seq<Bytes> := [];
    ghost var start := budget.State();
    ghost var done: nat := 0;
    ghost var whole := EvalMaterial(material, env, bindings, depth);
    assert material[0..] == material;
    GatheredNone(whole);
    for i := 0 to |material|
      invariant Settles(start, Priced(Ok(()), done), Ok(()), budget.State())
      invariant whole == Gathered(gathered, done, EvalMaterial(material[i..], env, bindings, depth))
    {
      ghost var first := Encoded(env, Eval(material[i], env, bindings, depth));
      ghost var rest := EvalMaterial(material[i + 1..], env, bindings, depth);
      MaterialSteps(material, i, env, bindings, depth);
      GatheredOne(gathered, done, first, rest);
      var part :- EncodePart(material[i], env, bindings, depth, budget);
      done := done + first.units;
      gathered := gathered + [part];
    }
    MaterialEnds(material, env, bindings, depth);
    GatheredAll(gathered, done);
    r := Ok(gathered);
  }

  lemma {:induction false} AllEnds(elements: seq<Expr>, env: Inputs, bindings: seq<Value>, depth: nat)
    ensures EvalAll(elements[|elements|..], env, bindings, depth) == Priced(Ok([]), 0)
  {}

  lemma {:induction false} AllSteps(elements: seq<Expr>, i: nat, env: Inputs, bindings: seq<Value>, depth: nat)
    requires i < |elements|
    ensures EvalAll(elements[i..], env, bindings, depth) ==
            Then(Kept(Eval(elements[i], env, bindings, depth)), EvalAll(elements[i + 1..], env, bindings, depth))
  {
    assert elements[i..][0] == elements[i] && elements[i..][1..] == elements[i + 1..];
  }

  /** Every element in order, each charged for the copy that keeps it. */
  method KeepAll(elements: seq<Expr>, env: Inputs, bindings: seq<Value>, depth: nat, budget: Budget)
    returns (r: Outcome<seq<Value>>)
    modifies budget`spent, budget`evaluated, budget.envelope`spent
    ensures Settles(old(budget.State()), EvalAll(elements, env, bindings, depth), r, budget.State())
    decreases elements, 0
  {
    hide Eval, EvalAll;
    var gathered: seq<Value> := [];
    ghost var start := budget.State();
    ghost var done: nat := 0;
    ghost var whole := EvalAll(elements, env, bindings, depth);
    assert elements[0..] == elements;
    GatheredNone(whole);
    for i := 0 to |elements|
      invariant Settles(start, Priced(Ok(()), done), Ok(()), budget.State())
      invariant whole == Gathered(gathered, done, EvalAll(elements[i..], env, bindings, depth))
    {
      ghost var first := Kept(Eval(elements[i], env, bindings, depth));
      ghost var rest := EvalAll(elements[i + 1..], env, bindings, depth);
      AllSteps(elements, i, env, bindings, depth);
      GatheredOne(gathered, done, first, rest);
      var part :- KeepOne(elements[i], env, bindings, depth, budget);
      done := done + first.units;
      gathered := gathered + [part];
    }
    AllEnds(elements, env, bindings, depth);
    GatheredAll(gathered, done);
    r := Ok(gathered);
  }

  method EncodePart(e: Expr, env: Inputs, bindings: seq<Value>, depth: nat, budget: Budget) returns (r: Outcome<Bytes>)
    modifies budget`spent, budget`evaluated, budget.envelope`spent
    ensures Settles(old(budget.State()), Encoded(env, Eval(e, env, bindings, depth)), r, budget.State())
    decreases e, 5
  {
    hide Eval;
    var held :- EvalExpr(e, env, bindings, depth, budget);
    var _ :- SpendWalk(held.value, budget);
    r := Ok(env.seam.encode(held.value));
  }

  method KeepOne(e: Expr, env: Inputs, bindings: seq<Value>, depth: nat, budget: Budget) returns (r: Outcome<Value>)
    modifies budget`spent, budget`evaluated, budget.envelope`spent
    ensures Settles(old(budget.State()), Kept(Eval(e, env, bindings, depth)), r, budget.State())
    decreases e, 5
  {
    hide Eval;
    var held :- EvalExpr(e, env, bindings, depth, budget);
    r := Force(held, budget);
  }
}
