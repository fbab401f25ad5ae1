/** The declared accesses folded into a set: one record a target, reserves summed. */
module EffectSets {
  import opened Vocabulary
  import opened Sequences

  const MAX_SLOT_WIDTH: Word32 := 16 * 1024

  /** What a set holds about one target: its modes, the one reserve kept apart
      from the others as the running total it is, and the narrowest width stated. */
  datatype Declared = Declared(modes: set<Mode>, reserved: Option<Word128>, width: Word32)

  type EffectSet = map<EffectTarget, Declared>

  datatype Conflict = Overflow

  /** One access and the width of the leaves its target reaches. */
  datatype Bounded = Bounded(effect: Effect, width: Word32)

  function At(s: EffectSet, target: EffectTarget): Declared {
    if target in s then s[target] else Declared({}, None, MAX_SLOT_WIDTH)
  }

  function Put(s: EffectSet, target: EffectTarget, declared: Declared): EffectSet { s[target := declared] }

  function Joined(declared: Declared, mode: Mode, width: Word32): Result<Declared, Conflict> {
    var narrowed := declared.(width := if width < declared.width then width else declared.width);
    if !mode.Reserve? then Ok(narrowed.(modes := declared.modes + {mode}))
    else if declared.reserved.None? then Ok(narrowed.(reserved := Some(mode.amount)))
    else if declared.reserved.value + mode.amount > MAX_WORD128 then Err(Overflow)
    else Ok(narrowed.(reserved := Some(declared.reserved.value + mode.amount)))
  }

  /** Add one access, folding what two accesses on one target mean together. */
  function Insert(s: EffectSet, entry: Bounded): Result<EffectSet, Conflict> {
    var target := entry.effect.target;
    var joined :- Joined(At(s, target), entry.effect.mode, entry.width);
    Ok(Put(s, target, joined))
  }

  function Fold(s: EffectSet, entries: seq<Bounded>): Result<EffectSet, Conflict>
    decreases |entries|
  {
    if entries == [] then Ok(s)
    else
      var next :- Insert(s, entries[0]);
      Fold(next, entries[1..])
  }

  // ------------------------------------------------------- what a fold amounts to

  function Amount(entry: Bounded, target: EffectTarget): nat {
    if entry.effect.target == target && entry.effect.mode.Reserve? then entry.effect.mode.amount else 0
  }

  /** Everything reserved on `target`, summed. */
  function Reserved(entries: seq<Bounded>, target: EffectTarget): nat {
    if entries == [] then 0 else Amount(entries[0], target) + Reserved(entries[1..], target)
  }

  /** What a set already holds reserved on `target`. */
  function Held(s: EffectSet, target: EffectTarget): nat {
    if At(s, target).reserved.Some? then At(s, target).reserved.value else 0
  }

  ghost function ModesOn(entries: seq<Bounded>, target: EffectTarget): set<Mode> {
    set e <- entries | e.effect.target == target && !e.effect.mode.Reserve? :: e.effect.mode
  }

  lemma {:induction false} InsertAddsItsAmount(s: EffectSet, entry: Bounded, target: EffectTarget)
    ensures Insert(s, entry).Ok? ==> Held(Insert(s, entry).value, target) == Held(s, target) + Amount(entry, target)
    ensures Insert(s, entry).Err? ==> Held(s, entry.effect.target) + Amount(entry, entry.effect.target) > MAX_WORD128
  {}

  /** `width` is the narrowest of what was held on `target` and what its entries state. */
  ghost predicate Narrowest(width: Word32, held: Word32, entries: seq<Bounded>, target: EffectTarget) {
    && width <= held
    && (forall e <- entries :: e.effect.target == target ==> width <= e.width)
    && (width == held || exists e <- entries :: e.effect.target == target && width == e.width)
  }

  lemma {:induction false} FoldNarrows(s: EffectSet, entries: seq<Bounded>, t: EffectTarget)
    requires Fold(s, entries).Ok?
    ensures Narrowest(At(Fold(s, entries).value, t).width, At(s, t).width, entries, t)
    decreases |entries|
  {
    if entries != [] {
      var entry, rest := entries[0], entries[1..];
      var next := Insert(s, entry).value;
      FoldNarrows(next, rest, t);
      var width := At(Fold(s, entries).value, t).width;
      assert entries == [entry] + rest;
      if width != At(next, t).width {
        var e :| e in rest && e.effect.target == t && width == e.width;
        assert e in entries;
      } else if width != At(s, t).width {
        assert entry in entries && entry.effect.target == t && width == entry.width;
      }
    }
  }

  /** A fold is refused exactly where some target's reserves pass what an amount can say,
      and otherwise holds on every target their exact sum, every other mode declared on it
      and the narrowest width stated for it. */
  lemma {:induction false} FoldIsTheSum(s: EffectSet, entries: seq<Bounded>)
    ensures Fold(s, entries).Ok? <==> forall t :: Held(s, t) + Reserved(entries, t) <= MAX_WORD128
    ensures Fold(s, entries).Ok? ==>
              forall t :: Held(Fold(s, entries).value, t) == Held(s, t) + Reserved(entries, t)
    ensures Fold(s, entries).Ok? ==>
              forall t :: At(Fold(s, entries).value, t).modes == At(s, t).modes + ModesOn(entries, t)
    ensures Fold(s, entries).Ok? ==>
              forall t :: Narrowest(At(Fold(s, entries).value, t).width, At(s, t).width, entries, t)
  {
    hide Fold, Narrowest;
    FoldSums(s, entries);
    if Fold(s, entries).Ok? {
      forall t ensures Narrowest(At(Fold(s, entries).value, t).width, At(s, t).width, entries, t) {
        FoldNarrows(s, entries, t);
      }
    }
  }

  lemma {:induction false} FoldSums(s: EffectSet, entries: seq<Bounded>)
    ensures Fold(s, entries).Ok? <==> forall t :: Held(s, t) + Reserved(entries, t) <= MAX_WORD128
    ensures Fold(s, entries).Ok? ==>
              forall t :: Held(Fold(s, entries).value, t) == Held(s, t) + Reserved(entries, t)
    ensures Fold(s, entries).Ok? ==>
              forall t :: At(Fold(s, entries).value, t).modes == At(s, t).modes + ModesOn(entries, t)
    decreases |entries|
  {
    if entries == [] {
      forall t ensures At(s, t).modes == At(s, t).modes + ModesOn(entries, t) {}
    } else {
      var entry, rest := entries[0], entries[1..];
      var next := Insert(s, entry);
      forall t ensures next.Ok? ==> Held(next.value, t) == Held(s, t) + Amount(entry, t) {
        InsertAddsItsAmount(s, entry, t);
      }
      forall t ensures Reserved(entries, t) == Amount(entry, t) + Reserved(rest, t) {}
      if next.Ok? {
        FoldSums(next.value, rest);
        if Fold(s, entries).Ok? {
          FoldKeepsItsModes(s, entries);
        }
      } else {
        InsertAddsItsAmount(s, entry, entry.effect.target);
        assert Held(s, entry.effect.target) + Reserved(entries, entry.effect.target) > MAX_WORD128;
      }
    }
  }

  lemma {:induction false} FoldKeepsItsModes(s: EffectSet, entries: seq<Bounded>)
    requires entries != [] && Insert(s, entries[0]).Ok?
    requires Fold(s, entries).Ok?
    requires forall t ::
               At(Fold(s, entries).value, t).modes ==
                   At(Insert(s, entries[0]).value, t).modes + ModesOn(entries[1..], t)
    ensures forall t :: At(Fold(s, entries).value, t).modes == At(s, t).modes + ModesOn(entries, t)
  {
    forall t ensures At(Fold(s, entries).value, t).modes == At(s, t).modes + ModesOn(entries, t) {
      assert entries == [entries[0]] + entries[1..];
      assert ModesOn(entries, t) == ModesOn([entries[0]], t) + ModesOn(entries[1..], t);
    }
  }

  // ------------------------------------------------------------ order is irrelevant

  function InsertBoth(s: EffectSet, a: Bounded, b: Bounded): Result<EffectSet, Conflict> {
    var next :- Insert(s, a);
    Insert(next, b)
  }

  function JoinBoth(d: Declared, a: Bounded, b: Bounded): Result<Declared, Conflict> {
    var next :- Joined(d, a.effect.mode, a.width);
    Joined(next, b.effect.mode, b.width)
  }

  lemma {:induction false} JoinsCommute(d: Declared, a: Bounded, b: Bounded)
    ensures JoinBoth(d, a, b) == JoinBoth(d, b, a)
  {
    assert d.modes + {a.effect.mode} + {b.effect.mode} == d.modes + {b.effect.mode} + {a.effect.mode};
  }

  lemma {:induction false} InsertsOnOneTarget(s: EffectSet, a: Bounded, b: Bounded)
    requires a.effect.target == b.effect.target
    ensures InsertBoth(s, a, b) ==
            var joined := JoinBoth(At(s, a.effect.target), a, b);
            if joined.Err? then Err(joined.error) else Ok(Put(s, a.effect.target, joined.value))
  {
    var next := Insert(s, a);
    if next.Ok? && Insert(next.value, b).Ok? {
      var t := a.effect.target;
      var d := JoinBoth(At(s, t), a, b).value;
      assert At(next.value, t) == next.value[t];
      assert Put(next.value, t, d) == Put(s, t, d);
    }
  }

  lemma {:induction false} InsertsCommute(s: EffectSet, a: Bounded, b: Bounded)
    ensures InsertBoth(s, a, b) == InsertBoth(s, b, a)
  {
    var t, u := a.effect.target, b.effect.target;
    if t == u {
      JoinsCommute(At(s, t), a, b);
      InsertsOnOneTarget(s, a, b);
      InsertsOnOneTarget(s, b, a);
    } else {
      forall d: Declared, e: Declared ensures Put(Put(s, t, d), u, e) == Put(Put(s, u, e), t, d) {}
    }
  }

  /** An entry folded later may as well be folded first. */
  lemma {:induction false} FoldedFirst(s: EffectSet, entries: seq<Bounded>, i: nat)
    requires i < |entries|
    ensures Fold(s, entries) == Fold(s, [entries[i]] + entries[..i] + entries[i + 1..])
    decreases i
  {
    hide Fold, Insert;
    if i == 0 {
      assert [entries[0]] + entries[..0] + entries[1..] == entries;
    } else {
      var a, b := entries[0], entries[i];
      var rest := entries[1..i] + entries[i + 1..];
      Rotates(entries, i);
      InsertsCommute(s, a, b);
      FoldsTwo(s, a, b, rest);
      FoldsTwo(s, b, a, rest);
      var next := Insert(s, a);
      if next.Ok? {
        FoldedFirst(next.value, entries[1..], i - 1);
        FoldsOne(next.value, b, rest);
      }
      FoldsOne(s, a, entries[1..]);
    }
  }

  lemma {:induction false} Rotates(entries: seq<Bounded>, i: nat)
    requires 0 < i < |entries|
    ensures var rest := entries[1..i] + entries[i + 1..];
            && entries == [entries[0]] + entries[1..]
            && [entries[i]] + entries[..i] + entries[i + 1..] == [entries[i]] + ([entries[0]] + rest)
            && [entries[1..][i - 1]] + entries[1..][..i - 1] + entries[1..][i..] == [entries[i]] + rest
  {
    assert entries[..i] == [entries[0]] + entries[1..i];
    assert entries[1..][..i - 1] == entries[1..i] && entries[1..][i..] == entries[i + 1..];
  }

  lemma {:induction false} FoldsOne(s: EffectSet, a: Bounded, rest: seq<Bounded>)
    ensures Fold(s, [a] + rest) ==
            if Insert(s, a).Err? then Err(Insert(s, a).error) else Fold(Insert(s, a).value, rest)
  {
    assert ([a] + rest)[1..] == rest;
  }

  lemma {:induction false} FoldsTwo(s: EffectSet, a: Bounded, b: Bounded, rest: seq<Bounded>)
    ensures Fold(s, [a] + ([b] + rest)) ==
            if InsertBoth(s, a, b).Err? then Err(InsertBoth(s, a, b).error) else Fold(InsertBoth(s, a, b).value, rest)
  {
    hide Fold, Insert;
    FoldsOne(s, a, [b] + rest);
    if Insert(s, a).Ok? {
      FoldsOne(Insert(s, a).value, b, rest);
    }
  }

  /** Folding answers alike, refusal included, for every order of the same entries. */
  lemma {:induction false} FoldIgnoresOrder(s: EffectSet, a: seq<Bounded>, b: seq<Bounded>)
    requires multiset(a) == multiset(b)
    ensures Fold(s, a) == Fold(s, b)
    decreases |a|
  {
    if a == [] {
      assert |multiset(b)| == 0;
    } else {
      var i := FirstOfPermutation(a, b);
      var rest := Without(b, i);
      FoldedFirst(s, b, i);
      assert [b[i]] + b[..i] + b[i + 1..] == [b[i]] + rest && ([b[i]] + rest)[1..] == rest;
      if Insert(s, a[0]).Ok? {
        FoldIgnoresOrder(Insert(s, a[0]).value, a[1..], rest);
      }
    }
  }

  lemma {:induction false} FoldAppend(s: EffectSet, a: seq<Bounded>, b: seq<Bounded>)
    ensures Fold(s, a).Ok? ==> Fold(s, a + b) == Fold(Fold(s, a).value, b)
    decreases |a|
  {
    if a == [] {
      assert a + b == b;
    } else {
      assert (a + b)[1..] == a[1..] + b;
      if Insert(s, a[0]).Ok? {
        FoldAppend(Insert(s, a[0]).value, a[1..], b);
      }
    }
  }
}
