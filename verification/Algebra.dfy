/** What the operators mean, said without their own definitions. */
module Algebra {
  import opened Vocabulary
  import opened Syntax
  import opened Evaluation
  import opened Targets

  // -------------------------------------------------------------------- arithmetic

  /** Packing keeps both words whole. */
  lemma {:induction false} PackedWordsUnpack(high: Word64, low: Word64)
    ensures PackWords(high, low) / 0x1_0000_0000_0000_0000 == high
    ensures PackWords(high, low) % 0x1_0000_0000_0000_0000 == low
  {}

  predicate Integers(a: Value, b: Value) { (a.VU64? && b.VU64?) || (a.VU128? && b.VU128?) }

  function Magnitude(v: Value): int { if v.VU64? then v.word else if v.VU128? then v.wide else 0 }

  /** Two integers of one width are ordered one way and one way only, by magnitude, and equality
      agrees with the order. */
  lemma {:induction false} OneWidthIsOrdered(a: Value, b: Value)
    requires Integers(a, b)
    ensures LessThan(a, b) == Ok(VBool(Magnitude(a) < Magnitude(b)))
    ensures Equals(a, b) == Ok(VBool(Magnitude(a) == Magnitude(b)))
    ensures Sum(a, b).Ok? ==> Integers(a, Sum(a, b).value) && Magnitude(Sum(a, b).value) == Magnitude(a) + Magnitude(b)
    ensures Sum(a, b).Err? <==> Magnitude(a) + Magnitude(b) > (if a.VU64? then MAX_WORD64 else MAX_WORD128)
  {}

  /** Nothing else is ordered or summed: a mixed width or any other kind is refused. */
  lemma {:induction false} OtherKindsAreRefused(a: Value, b: Value)
    requires !Integers(a, b)
    ensures LessThan(a, b).Err? && Sum(a, b).Err?
  {}

  // -------------------------------------------------------------- whole values

  /** Walking adds up: a sequence costs one more than its parts, however it is put together. */
  lemma {:induction false} WalksAddUp(a: seq<Value>, b: seq<Value>)
    ensures Walked(VList(a + b)) + 1 == Walked(VList(a)) + Walked(VList(b))
    ensures Walked(VTuple(a)) == Walked(VList(a))
    ensures a == [] ==> Walked(VList(a)) == 1
    ensures |a| == 1 ==> Walked(VList(a)) == 1 + Walked(a[0])
  {
    if a == [] {
      assert a + b == b;
    } else {
      assert (a + b)[1..] == a[1..] + b;
      WalksAddUp(a[1..], b);
    }
  }

  /** What has no parts is one visit, and one more for every eight bytes carried. */
  lemma {:induction false} WholeValuesAreOneVisit(v: Value)
    requires !v.VTuple? && !v.VList?
    ensures Walked(v) == 1 + (if v.VBytes? then |v.bytes| / 8 else 0)
  {}

  /** `part` sits in `v`, at any depth. */
  predicate Within(part: Value, v: Value)
    decreases v
  {
    part == v || exists i :: 0 <= i < |v.Parts()| && Within(part, v.Parts()[i])
  }

  lemma {:induction false} BucketBelow(v: Value) returns (i: nat)
    requires HoldsBucket(v) && !v.VBucket?
    ensures i < |v.Parts()| && HoldsBucket(v.Parts()[i])
  {
    if v.VTuple? {
      i :| 0 <= i < |v.fields| && HoldsBucket(v.fields[i]);
    } else {
      i :| 0 <= i < |v.elements| && HoldsBucket(v.elements[i]);
    }
  }

  lemma {:induction false} BucketAbove(v: Value, i: nat)
    requires i < |v.Parts()| && HoldsBucket(v.Parts()[i])
    ensures HoldsBucket(v)
  {
    assert v.VTuple? || v.VList?;
  }

  /** Comparing refuses a value exactly where a bucket sits somewhere in it. */
  lemma {:induction false} BucketsAreFoundAtAnyDepth(v: Value)
    ensures HoldsBucket(v) <==> exists part :: Within(part, v) && part.VBucket?
    decreases v
  {
    if v.VBucket? {
      assert Within(v, v);
    } else if HoldsBucket(v) {
      var i := BucketBelow(v);
      BucketsAreFoundAtAnyDepth(v.Parts()[i]);
      var part :| Within(part, v.Parts()[i]) && part.VBucket?;
      assert Within(part, v);
    }
    if part :| Within(part, v) && part.VBucket? && part != v {
      var i :| 0 <= i < |v.Parts()| && Within(part, v.Parts()[i]);
      BucketsAreFoundAtAnyDepth(v.Parts()[i]);
      BucketAbove(v, i);
    }
  }

  // ------------------------------------------------------------------------- tables

  predicate IsPair(v: Value) { v.VTuple? && |v.fields| == 2 }

  /** Every entry before `i` is a pair under some other key. */
  predicate NoneBefore(pairs: seq<Value>, key: Value, i: nat)
    requires i <= |pairs|
  {
    forall j :: 0 <= j < i ==> IsPair(pairs[j]) && pairs[j].fields[0] != key
  }

  /** The probe paid for once an entry. */
  function Looks(n: nat, key: Value): nat { if n == 0 then 0 else Walked(key) + Looks(n - 1, key) }

  lemma {:induction false} NoneBeforeAny(pairs: seq<Value>, key: Value)
    ensures NoneBefore(pairs, key, 0)
  {}

  lemma {:induction false} NoneBeforeTail(pairs: seq<Value>, key: Value, k: nat)
    requires pairs != [] && IsPair(pairs[0]) && pairs[0].fields[0] != key
    requires k <= |pairs[1..]| && NoneBefore(pairs[1..], key, k)
    ensures NoneBefore(pairs, key, k + 1)
  {
    forall j | 0 <= j < k + 1 ensures IsPair(pairs[j]) && pairs[j].fields[0] != key {
      if j > 0 {
        assert pairs[j] == pairs[1..][j - 1];
      }
    }
  }

  /** A scan stops at the first entry that is no pair or is under the key, answers by which it is,
      and pays for the probe once for every entry it looked at. */
  lemma {:induction false} ScansStopAtTheFirst(pairs: seq<Value>, key: Value) returns (i: nat)
    ensures i <= |pairs| && NoneBefore(pairs, key, i)
    ensures i == |pairs| ==> Find(pairs, key) == Priced(Ok(None), Looks(|pairs|, key))
    ensures i < |pairs| ==>
              && Find(pairs, key).units == Looks(i + 1, key)
              && (!IsPair(pairs[i]) ==> Find(pairs, key).result == Err(LookupNotPairs))
              && (IsPair(pairs[i]) ==> pairs[i].fields[0] == key)
              && (IsPair(pairs[i]) ==> Find(pairs, key).result == Ok(Some(pairs[i].fields[1])))
    decreases |pairs|
  {
    hide Walked, NoneBefore;
    NoneBeforeAny(pairs, key);
    i := 0;
    if pairs != [] && IsPair(pairs[0]) && pairs[0].fields[0] != key {
      var rest := pairs[1..];
      var k := ScansStopAtTheFirst(rest, key);
      i := k + 1;
      assert Find(pairs, key) == Find(rest, key).Plus(Walked(key));
      assert i < |pairs| ==> pairs[i] == rest[k];
      NoneBeforeTail(pairs, key, k);
    }
  }

  /** Membership is true exactly where a lookup answers and false exactly where the scan misses,
      and whatever else refuses one refuses the other. */
  lemma {:induction false} MembershipMirrorsLookup(
      table: Expr, probe: Expr, env: Inputs, bindings: seq<Value>, depth: nat)
    ensures var found := Build(Lookup(table, probe), env, bindings, depth).result;
            var held := Build(Contains(table, probe), env, bindings, depth).result;
            && (held == Ok(VBool(true)) <==> found.Ok?)
            && (held == Ok(VBool(false)) ==> found == Err(LookupMiss))
            && (held.Err? ==> found == Err(held.error))
            && (held.Ok? ==> held.value.VBool?)
  {
    hide Eval;
    var scanned := Scanned(Eval(table, env, bindings, depth), Eval(probe, env, bindings, depth));
    assert Build(Lookup(table, probe), env, bindings, depth) ==
           ScanFrom(Lookup(table, probe), Eval(table, env, bindings, depth), Eval(probe, env, bindings, depth));
    assert Build(Contains(table, probe), env, bindings, depth) ==
           ScanFrom(Contains(table, probe), Eval(table, env, bindings, depth), Eval(probe, env, bindings, depth));
  }

  // -------------------------------------------------------------------------- edges

  /** The values a list of ids is. */
  function Words(ids: seq<Word64>): seq<Value> { seq(|ids|, i requires 0 <= i < |ids| => VU64(ids[i])) }

  predicate Distinct(ids: seq<Word64>) { forall i, j :: 0 <= i < j < |ids| ==> ids[i] != ids[j] }

  lemma {:induction false} IdsReadInOrder(values: seq<Value>, seen: seq<Word64>)
    requires Distinct(seen)
    ensures IdsAfter(values, seen).Ok? ==>
              && seen <= IdsAfter(values, seen).value
              && values == Words(IdsAfter(values, seen).value[|seen|..])
              && Distinct(IdsAfter(values, seen).value) && |IdsAfter(values, seen).value| <= MAX_IDS_PER_EDGE
    decreases |values|
  {
    if values == [] {
      assert seen[|seen|..] == [];
    } else if values[0].VU64? && values[0].word !in seen {
      var id := values[0].word;
      IdsReadInOrder(values[1..], seen + [id]);
      var r := IdsAfter(values, seen);
      if r.Ok? {
        assert r.value[|seen|..] == [id] + r.value[|seen| + 1..];
        assert Words(r.value[|seen|..]) == [VU64(id)] + Words(r.value[|seen| + 1..]);
      }
    }
  }

  lemma {:induction false} WordsAreRead(ids: seq<Word64>, k: nat)
    requires Distinct(ids) && |ids| <= MAX_IDS_PER_EDGE && k <= |ids|
    ensures IdsAfter(Words(ids)[k..], ids[..k]) == Ok(ids)
    decreases |ids| - k
  {
    if k == |ids| {
      assert ids[..k] == ids;
    } else {
      assert Words(ids)[k..][1..] == Words(ids)[k + 1..] && ids[..k] + [ids[k]] == ids[..k + 1];
      assert ids[k] !in ids[..k];
      WordsAreRead(ids, k + 1);
    }
  }

  /** A list reads as an id set exactly where it is that many words, none repeated, within the cap. */
  lemma {:induction false} IdSetsAreDistinctWords(values: seq<Value>, ids: seq<Word64>)
    ensures IdsAfter(values, []) == Ok(ids) <==> values == Words(ids) && Distinct(ids) && |ids| <= MAX_IDS_PER_EDGE
  {
    IdsReadInOrder(values, []);
    if values == Words(ids) && Distinct(ids) && |ids| <= MAX_IDS_PER_EDGE {
      WordsAreRead(ids, 0);
      assert Words(ids)[0..] == Words(ids) && ids[..0] == [];
    }
    if IdsAfter(values, []) == Ok(ids) {
      assert ids[0..] == ids;
    }
  }

  /** Building an instance edge and projecting it gives back the resource and the ids it was built from. */
  lemma {:induction false} EdgesProjectBack(resource: Address, ids: Priced<Answer>)
    requires EdgeOf(resource, ids).result.Ok?
    ensures var edge := EdgeOf(resource, ids).result.value;
            && ids.result.Ok?
            && ReadOf(IdsOf(Literal(edge)), edge) == Ok(ids.result.value.value)
            && ReadOf(ResourceOf(Literal(edge)), edge) == Ok(VAddress(resource))
  {
    var elements := Listed(ids).result.value;
    var edge := EdgeOf(resource, ids).result.value;
    IdSetsAreDistinctWords(elements, edge.content.ids);
  }

  // ---------------------------------------------------------------------- selections

  /** A conjunction answers what selecting its right operand on its left would, and never asks a
      right operand its left one settled; a disjunction likewise. */
  lemma {:induction false} DecisionsAreSelections(left: Priced<Answer>, right: Priced<Answer>, short: bool)
    ensures var decided := ShortFrom(left, right, short);
            var settled := Priced(Ok(Answer(VBool(short), true)), 0);
            var selected := if short then SelectFrom(left, settled, right) else SelectFrom(left, right, settled);
            && decided.units == selected.units
            && (decided.result.Ok? ==> selected.result.Ok? && selected.result.value.value == decided.result.value)
            && (selected.result.Err? ==> decided.result == Err(selected.result.error))
            && (Flag(left).result == Ok(short) ==> decided.result == Ok(VBool(short)) && decided.units == left.units)
  {}

  // ------------------------------------------------------- refusals that are not a meter's

  /** A verdict no meter had a part in. */
  predicate Unmetered<T>(r: Outcome<T>) { r.Err? ==> r.error != TooMuchWork && r.error != EnvelopeTooMuchWork }

  /** Only a meter refuses for work: the unmetered evaluation never does, so an evaluation that
      answers with a meter's refusal is one the meter stopped. */
  lemma {:induction false} OnlyMetersRefuseForWork(e: Expr, env: Inputs, bindings: seq<Value>, depth: nat)
    ensures Unmetered(Eval(e, env, bindings, depth).result)
    decreases e, 2
  {
    hide Build;
    if depth <= MAX_EXPR_DEPTH && !Hands(e) {
      if e.If? {
        OnlyMetersRefuseForWork(e.cond, env, bindings, depth + 1);
        OnlyMetersRefuseForWork(e.then_, env, bindings, depth + 1);
        OnlyMetersRefuseForWork(e.otherwise, env, bindings, depth + 1);
      } else {
        BuildingIsUnmetered(e, env, bindings, depth + 1);
      }
    }
  }

  lemma {:induction false} BuildingIsUnmetered(e: Expr, env: Inputs, bindings: seq<Value>, depth: nat)
    requires Builds(e)
    ensures Unmetered(Build(e, env, bindings, depth).result)
    decreases e, 1
  {
    hide Eval, EvalAll, EvalMaterial, EvalSlot;
    if Reads(e) || Projects(e) {
      OnlyMetersRefuseForWork(e.inner, env, bindings, depth);
    } else if Gathers(e) {
      KeepingIsUnmetered(e.elements, env, bindings, depth);
    } else if Scans(e) {
      OnlyMetersRefuseForWork(e.table, env, bindings, depth);
      OnlyMetersRefuseForWork(e.probe, env, bindings, depth);
      ScanningIsUnmetered(e, Eval(e.table, env, bindings, depth), Eval(e.probe, env, bindings, depth));
    } else if Computes(e) || Decides(e) || e.Eq? {
      OnlyMetersRefuseForWork(e.left, env, bindings, depth);
      OnlyMetersRefuseForWork(e.right, env, bindings, depth);
    } else if e.Pack? {
      OnlyMetersRefuseForWork(e.high, env, bindings, depth);
      OnlyMetersRefuseForWork(e.low, env, bindings, depth);
    } else if e.NfBucket? {
      OnlyMetersRefuseForWork(e.resource, env, bindings, depth);
      OnlyMetersRefuseForWork(e.ids, env, bindings, depth);
      EdgesAreUnmetered(Eval(e.resource, env, bindings, depth), Eval(e.ids, env, bindings, depth));
    } else if !Draws(e) {
      DerivingIsUnmetered(e, env, bindings, depth);
    }
  }

  lemma {:induction false} DerivingIsUnmetered(e: Expr, env: Inputs, bindings: seq<Value>, depth: nat)
    requires e.SelfResource? || e.ChildKey? || e.OrderKey?
    ensures Unmetered(Build(e, env, bindings, depth).result)
    decreases e, 0
  {
    hide Eval, EvalMaterial;
    EncodingIsUnmetered(e.material, env, bindings, depth);
    if !e.SelfResource? {
      OnlyMetersRefuseForWork(e.owner, env, bindings, depth);
    }
    if e.ChildKey? && e.slot.Reached? {
      OnlyMetersRefuseForWork(e.slot.named, env, bindings, depth);
    }
  }

  lemma {:induction false} ScanningIsUnmetered(e: Expr, table: Priced<Answer>, probe: Priced<Answer>)
    requires Scans(e) && Unmetered(table.result) && Unmetered(probe.result)
    ensures Unmetered(ScanFrom(e, table, probe).result)
  {
    if Listed(table).result.Ok? && probe.result.Ok? {
      var i := ScansStopAtTheFirst(Listed(table).result.value, probe.result.value.value);
    }
  }

  lemma {:induction false} IdsAreUnmetered(values: seq<Value>, seen: seq<Word64>)
    ensures Unmetered(IdsAfter(values, seen))
    decreases |values|
  {
    if values != [] && values[0].VU64? {
      IdsAreUnmetered(values[1..], seen + [values[0].word]);
    }
  }

  lemma {:induction false} EdgesAreUnmetered(resource: Priced<Answer>, ids: Priced<Answer>)
    requires Unmetered(resource.result) && Unmetered(ids.result)
    ensures Unmetered(EdgeFrom(resource, ids).result)
  {
    if Listed(ids).result.Ok? {
      IdsAreUnmetered(Listed(ids).result.value, []);
    }
  }

  lemma {:induction false} EncodingIsUnmetered(material: seq<Expr>, env: Inputs, bindings: seq<Value>, depth: nat)
    ensures Unmetered(EvalMaterial(material, env, bindings, depth).result)
    decreases material, 0
  {
    hide Eval;
    if material != [] {
      OnlyMetersRefuseForWork(material[0], env, bindings, depth);
      EncodingIsUnmetered(material[1..], env, bindings, depth);
    }
  }

  lemma {:induction false} KeepingIsUnmetered(elements: seq<Expr>, env: Inputs, bindings: seq<Value>, depth: nat)
    ensures Unmetered(EvalAll(elements, env, bindings, depth).result)
    decreases elements, 0
  {
    hide Eval;
    if elements != [] {
      OnlyMetersRefuseForWork(elements[0], env, bindings, depth);
      KeepingIsUnmetered(elements[1..], env, bindings, depth);
    }
  }

  // ------------------------------------------------------------------------- targets

  /** A target spelled under the callee names the callee's own prefix. */
  predicate OwnTarget(target: TargetExpr) {
    match target
    case PointAt(key) => key.FreshKey? || (key.ChildKey? && key.owner == SelfAddr)
    case EntryAt(owner, _, _, _) => owner == SelfAddr
    case RangeOver(owner, _, _, _, _, _) => owner == SelfAddr
  }

  lemma {:induction false} SelfIsSelf(env: Inputs, bindings: seq<Value>, depth: nat)
    ensures var self := Eval(SelfAddr, env, bindings, depth).result;
            self.Ok? ==> self.value.value == VAddress(env.self)
  {}

  /** Every evaluated target of the callee's own spelling sits under the callee, and every
      evaluated interval runs upward. */
  lemma {:induction false} TargetsAreWellPlaced(target: TargetExpr, env: Inputs, bindings: seq<Value>)
    ensures var placed := EvalTarget(target, env, bindings).result;
            placed.Ok? ==>
              && (OwnTarget(target) ==> placed.value.Owner() == env.self)
              && (target.RangeOver? ==> placed.value.Range? && placed.value.lo <= placed.value.hi)
              && (target.EntryAt? ==> placed.value.Entry?)
              && (target.PointAt? ==> placed.value.Point?)
  {
    if target.PointAt? {
      if OwnTarget(target) {
        OwnKeysAreOwn(target.key, env, bindings);
      }
    } else {
      hide Eval, EvalCollection;
      SelfIsSelf(env, bindings, 0);
    }
  }

  lemma {:induction false} OwnKeysAreOwn(key: Expr, env: Inputs, bindings: seq<Value>)
    requires OwnTarget(PointAt(key))
    ensures var held := Eval(key, env, bindings, 0).result;
            held.Ok? ==> held.value.value.VKey? && held.value.value.key.owner == env.self
  {
    hide EvalMaterial, EvalSlot;
    if key.ChildKey? {
      SelfIsSelf(env, bindings, 1);
      assert Build(key, env, bindings, 1) ==
             ChildFrom(env, Eval(SelfAddr, env, bindings, 1), EvalSlot(key.slot, true, env, bindings, 1),
                       EvalMaterial(key.material, env, bindings, 1));
    } else {
      assert Build(key, env, bindings, 1) == Priced(Drawn(key, env), 0);
    }
    assert Answered(key, env, bindings, 1) == Owned(Build(key, env, bindings, 1));
  }
}
