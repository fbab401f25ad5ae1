/** What a declaration claims, in units a fee schedule can price. */
module Footprint {
  import opened Vocabulary
  import opened Sequences

  const TARGET_UNITS: nat := 1
  const SPAN_UNITS: nat := 1
  const DEPTH_UNITS: nat := 1
  const SCAN_SEEK_ENTRIES: nat := 4
  const EXCLUSIVITY_FLOOR: nat := 1

  function SaturatingMul(a: nat, b: nat): nat { if a * b > MAX_WORD64 then MAX_WORD64 else a * b }

  // -------------------------------------------------------------------- weight

  /** Whether two accesses in these modes may share a cell. */
  predicate Compatible(a: ModeKind, b: ModeKind) {
    || (a.ReadKind? && b.ReadKind?)
    || ((a.DeltaKind? || a.ReserveKind?) && (b.DeltaKind? || b.ReserveKind?))
  }

  const KINDS: seq<ModeKind> := [ReadKind, DeltaKind, ReserveKind, WriteKind]

  function Excluded(kind: ModeKind, kinds: seq<ModeKind>): nat {
    if kinds == [] then 0 else (if Compatible(kind, kinds[0]) then 0 else 1) + Excluded(kind, kinds[1..])
  }

  function ModeWeight(kind: ModeKind): nat { EXCLUSIVITY_FLOOR + Excluded(kind, KINDS) }

  /** Counted off the lattice one mode at a time. */
  method CountWeight(kind: ModeKind) returns (weight: nat)
    ensures weight == ModeWeight(kind)
  {
    var excluded, index := 0, 0;
    while index < |KINDS|
      invariant index <= |KINDS|
      invariant excluded + Excluded(kind, KINDS[index..]) == Excluded(kind, KINDS)
    {
      assert KINDS[index..][0] == KINDS[index] && KINDS[index..][1..] == KINDS[index + 1..];
      if !Compatible(kind, KINDS[index]) {
        excluded := excluded + 1;
      }
      index := index + 1;
    }
    weight := EXCLUSIVITY_FLOOR + excluded;
  }

  /** The schedule the lattice comes to: a write excludes everything, and a fresh read more than
      the commutative modes do. */
  lemma {:induction false} WeightsFollowTheLattice()
    ensures ModeWeight(DeltaKind) == ModeWeight(ReserveKind) == 3
    ensures ModeWeight(ReadKind) == 4 && ModeWeight(WriteKind) == 5
  {
    forall kind ensures Excluded(kind, KINDS) ==
      (if Compatible(kind, ReadKind) then 0 else 1) + (if Compatible(kind, DeltaKind) then 0 else 1)
      + (if Compatible(kind, ReserveKind) then 0 else 1) + (if Compatible(kind, WriteKind) then 0 else 1)
    {
      assert KINDS[1..] == [DeltaKind, ReserveKind, WriteKind];
      assert KINDS[1..][1..] == [ReserveKind, WriteKind];
      assert KINDS[1..][1..][1..] == [WriteKind] && KINDS[1..][1..][1..][1..] == [];
    }
  }

  // ---------------------------------------------------------------------- span

  /** How many binary digits a number takes. */
  function BitLength(n: nat): nat { if n == 0 then 0 else 1 + BitLength(n / 2) }

  /** The order-key bits an interval spans: none for an empty or single-key one. */
  function OrderBits(lo: Word128, hi: Word128): nat { if hi <= lo then 0 else BitLength(hi - lo) }

  function SpanUnits(target: EffectTarget): nat {
    match target
    case Range(_, _, lo, hi, _) => SaturatingAdd64(TARGET_UNITS, SaturatingMul(SPAN_UNITS, OrderBits(lo, hi)))
    case _ => TARGET_UNITS
  }

  function DepthUnits(target: EffectTarget): nat {
    match target
    case Range(_, _, _, _, cap) => SaturatingMul(DEPTH_UNITS, SaturatingAdd64(SCAN_SEEK_ENTRIES, cap))
    case _ => DEPTH_UNITS
  }

  /** One effect's footprint: exclusion priced by span and weight together, and work beside it. */
  function EffectUnits(effect: Effect): nat {
    SaturatingAdd64(SaturatingMul(SpanUnits(effect.target), ModeWeight(effect.mode.Kind())), DepthUnits(effect.target))
  }

  /** A number takes `b` digits at most exactly where it is below two to the `b`. */
  lemma {:induction false} DigitsBound(n: nat, b: nat)
    ensures BitLength(n) <= b <==> n < Pow2(b)
    decreases b
  {
    if n > 0 && b > 0 {
      DigitsBound(n / 2, b - 1);
    }
  }

  lemma {:induction false} MoreTakesMore(m: nat, n: nat)
    requires m <= n
    ensures BitLength(m) <= BitLength(n)
  {
    DigitsBound(n, BitLength(n));
    DigitsBound(m, BitLength(n));
  }

  lemma {:induction false} PowersGrow(a: nat, b: nat)
    requires a <= b
    ensures Pow2(a) <= Pow2(b)
    decreases b
  {
    if a < b {
      PowersGrow(a, b - 1);
    }
  }

  /** Two spans and the key between them take at most one digit more than the two together. */
  lemma {:induction false} JoinedSpans(m: nat, n: nat)
    ensures BitLength(m + n + 1) <= BitLength(m) + BitLength(n) + 1
  {
    var a, b := BitLength(m), BitLength(n);
    var k := if a < b then b else a;
    DigitsBound(m, a);
    DigitsBound(n, b);
    PowersGrow(a, k);
    PowersGrow(b, k);
    assert Pow2(k + 1) == 2 * Pow2(k);
    DigitsBound(m + n + 1, k + 1);
  }

  lemma {:induction false} SixteenDigits(n: nat)
    ensures Pow2(n + 16) == 0x1_0000 * Pow2(n)
  {
    assert Pow2(n + 4) == 2 * Pow2(n + 3) == 4 * Pow2(n + 2) == 8 * Pow2(n + 1) == 0x10 * Pow2(n);
    assert Pow2(n + 8) == 2 * Pow2(n + 7) == 4 * Pow2(n + 6) == 8 * Pow2(n + 5) == 0x10 * Pow2(n + 4);
    assert Pow2(n + 12) == 2 * Pow2(n + 11) == 4 * Pow2(n + 10) == 8 * Pow2(n + 9) == 0x10 * Pow2(n + 8);
    assert Pow2(n + 16) == 2 * Pow2(n + 15) == 4 * Pow2(n + 14) == 8 * Pow2(n + 13) == 0x10 * Pow2(n + 12);
  }

  lemma {:induction false} OrderBitsBounded(lo: Word128, hi: Word128)
    ensures OrderBits(lo, hi) <= 128
  {
    hide Pow2;
    assert Pow2(0) == 1 by { PowerOfNone(); }
    SixteenDigits(0);
    SixteenDigits(16);
    SixteenDigits(32);
    SixteenDigits(48);
    SixteenDigits(64);
    SixteenDigits(80);
    SixteenDigits(96);
    SixteenDigits(112);
    if lo < hi {
      DigitsBound(hi - lo, 128);
    }
  }

  lemma {:induction false} PowerOfNone()
    ensures Pow2(0) == 1
  {}

  /** No footprint saturates: each is its exact price, and well below the width it is kept in. */
  lemma {:induction false} PricesAreExact(effect: Effect)
    ensures effect.target.Range? ==>
              EffectUnits(effect) ==
              (1 + OrderBits(effect.target.lo, effect.target.hi)) * ModeWeight(effect.mode.Kind()) + 4
                  + effect.target.cap
    ensures !effect.target.Range? ==> EffectUnits(effect) == ModeWeight(effect.mode.Kind()) + 1
    ensures ModeWeight(effect.mode.Kind()) == if effect.mode.Write? then 5 else if effect.mode.Read? then 4 else 3
    ensures EffectUnits(effect) < 0x1_0000_0300
  {
    WeightsFollowTheLattice();
    var weight := ModeWeight(effect.mode.Kind());
    assert 3 <= weight <= 5;
    if effect.target.Range? {
      var bits := OrderBits(effect.target.lo, effect.target.hi);
      OrderBitsBounded(effect.target.lo, effect.target.hi);
      assert SpanUnits(effect.target) == 1 + bits;
      assert (1 + bits) * weight <= 129 * 5;
    }
  }

  // ------------------------------------------------------------- what the price rewards

  lemma {:induction false} Weighing(whole: nat, a: nat, b: nat, weight: nat)
    requires whole <= a + b
    ensures whole * weight <= a * weight + b * weight
  {
    assert (a + b) * weight == a * weight + b * weight;
    assert (a + b - whole) * weight >= 0;
  }

  lemma {:induction false} WiderSpansMore(lo: Word128, hi: Word128, outerLo: Word128, outerHi: Word128)
    requires outerLo <= lo && hi <= outerHi
    ensures OrderBits(lo, hi) <= OrderBits(outerLo, outerHi)
  {
    if lo < hi {
      MoreTakesMore(hi - lo, outerHi - outerLo);
    }
  }

  lemma {:induction false} CutsSpanMore(lo: Word128, mid: Word128, hi: Word128)
    requires lo <= mid < hi
    ensures OrderBits(lo, hi) <= OrderBits(lo, mid) + OrderBits(mid + 1, hi) + 1
  {
    JoinedSpans(mid - lo, hi - mid - 1);
    assert BitLength(0) == 0;
  }

  /** Claiming more of the same collection, or walking further, never costs less. */
  lemma {:induction false} WiderCostsMore(inner: EffectTarget, outer: EffectTarget, mode: Mode)
    requires inner.Range? && outer.Range?
    requires outer.lo <= inner.lo && inner.hi <= outer.hi && inner.cap <= outer.cap
    ensures EffectUnits(Effect(inner, mode)) <= EffectUnits(Effect(outer, mode))
  {
    hide EffectUnits, ModeWeight, OrderBits;
    PricesAreExact(Effect(inner, mode));
    PricesAreExact(Effect(outer, mode));
    var a, b, w := OrderBits(inner.lo, inner.hi), OrderBits(outer.lo, outer.hi), ModeWeight(mode.Kind());
    WiderSpansMore(inner.lo, inner.hi, outer.lo, outer.hi);
    Weighing(1 + a, 1 + b, 0, w);
  }

  /** Ranges laid end to end, each starting one key past the last one's end. */
  predicate Tiles(pieces: seq<EffectTarget>, lo: Word128, hi: Word128)
    decreases |pieces|
  {
    && pieces != [] && pieces[0].Range? && pieces[0].lo == lo && lo <= pieces[0].hi
    && (if |pieces| == 1 then pieces[0].hi == hi
        else pieces[0].hi < hi && Tiles(pieces[1..], pieces[0].hi + 1, hi))
  }

  function TotalUnits(pieces: seq<EffectTarget>, mode: Mode): nat {
    if pieces == [] then 0 else EffectUnits(Effect(pieces[0], mode)) + TotalUnits(pieces[1..], mode)
  }

  function TotalCap(pieces: seq<EffectTarget>): nat {
    if pieces == [] then 0 else (if pieces[0].Range? then pieces[0].cap else 0) + TotalCap(pieces[1..])
  }

  /** The price of a range, as a figure for a cap of any size. */
  function PriceOf(lo: Word128, hi: Word128, mode: Mode, cap: nat): nat {
    (1 + OrderBits(lo, hi)) * ModeWeight(mode.Kind()) + 4 + cap
  }

  lemma {:induction false} CutsCostMore(lo: Word128, mid: Word128, hi: Word128, mode: Mode)
    requires lo <= mid < hi
    ensures PriceOf(lo, hi, mode, 0) <= PriceOf(lo, mid, mode, 0) + PriceOf(mid + 1, hi, mode, 0)
  {
    hide ModeWeight, OrderBits;
    var a, b, c, w := OrderBits(lo, mid), OrderBits(mid + 1, hi), OrderBits(lo, hi), ModeWeight(mode.Kind());
    CutsSpanMore(lo, mid, hi);
    Weighing(1 + c, 1 + a, 1 + b, w);
  }

  lemma {:induction false} TilingCosts(pieces: seq<EffectTarget>, lo: Word128, hi: Word128, mode: Mode)
    requires Tiles(pieces, lo, hi)
    ensures PriceOf(lo, hi, mode, TotalCap(pieces)) <= TotalUnits(pieces, mode)
    decreases |pieces|
  {
    hide EffectUnits, ModeWeight, OrderBits;
    PricesAreExact(Effect(pieces[0], mode));
    if |pieces| == 1 {
      assert pieces[1..] == [];
    } else {
      TilingCosts(pieces[1..], pieces[0].hi + 1, hi, mode);
      CutsCostMore(lo, pieces[0].hi, hi, mode);
    }
  }

  /** Cutting a range into adjacent pieces, in the same mode and with caps that total at least
      the whole's, never lowers its price. */
  lemma {:induction false} CuttingNeverSaves(whole: EffectTarget, pieces: seq<EffectTarget>, mode: Mode)
    requires whole.Range? && Tiles(pieces, whole.lo, whole.hi)
    requires TotalCap(pieces) >= whole.cap
    ensures EffectUnits(Effect(whole, mode)) <= TotalUnits(pieces, mode)
  {
    hide EffectUnits, TotalUnits;
    PricesAreExact(Effect(whole, mode));
    TilingCosts(pieces, whole.lo, whole.hi, mode);
  }

  // -------------------------------------------------------------------- the total

  function Total(effects: seq<Effect>): nat {
    if effects == [] then 0 else EffectUnits(effects[0]) + Total(effects[1..])
  }

  lemma {:induction false} TotalSplits(effects: seq<Effect>, i: nat)
    requires i < |effects|
    ensures Total(effects) == EffectUnits(effects[i]) + Total(Without(effects, i))
    decreases i
  {
    hide EffectUnits;
    if i == 0 {
      assert Without(effects, 0) == effects[1..];
    } else {
      TotalSplits(effects[1..], i - 1);
      assert effects[1..][i - 1] == effects[i];
      assert Without(effects, i)[0] == effects[0] && Without(effects, i)[1..] == Without(effects[1..], i - 1);
    }
  }

  lemma {:induction false} TotalIgnoresOrder(a: seq<Effect>, b: seq<Effect>)
    requires multiset(a) == multiset(b)
    ensures Total(a) == Total(b)
    decreases |a|
  {
    hide EffectUnits;
    if a == [] {
      assert |multiset(b)| == 0;
    } else {
      var i := FirstOfPermutation(a, b);
      TotalSplits(b, i);
      TotalIgnoresOrder(a[1..], Without(b, i));
    }
  }

  lemma {:induction false} TotalBounded(effects: seq<Effect>)
    ensures Total(effects) <= |effects| * 0x1_0000_0300
    decreases |effects|
  {
    hide EffectUnits;
    if effects != [] {
      PricesAreExact(effects[0]);
      TotalBounded(effects[1..]);
    }
  }

  lemma {:induction false} TotalOfPrefix(effects: seq<Effect>, i: nat)
    requires i < |effects|
    ensures Total(effects[..i + 1]) == Total(effects[..i]) + EffectUnits(effects[i])
  {
    hide EffectUnits;
    TotalSplits(effects[..i + 1], i);
    assert Without(effects[..i + 1], i) == effects[..i];
  }

  /** The fold does not saturate over at most two to the thirty-first effects. */
  lemma {:induction false} FoldsAreExact(effects: seq<Effect>)
    requires |effects| <= 0x8000_0000
    ensures SaturatingAdd64(0, Total(effects)) == Total(effects)
  {
    hide Total;
    TotalBounded(effects);
  }

  /** The saturating fold, over the effects in whatever order they come. */
  method PriceAll(effects: seq<Effect>) returns (total: nat)
    ensures total == SaturatingAdd64(0, Total(effects))
  {
    hide EffectUnits;
    total := 0;
    for i := 0 to |effects|
      invariant total == SaturatingAdd64(0, Total(effects[..i]))
    {
      TotalOfPrefix(effects, i);
      total := SaturatingAdd64(total, EffectUnits(effects[i]));
    }
    assert effects[..|effects|] == effects;
  }
}
