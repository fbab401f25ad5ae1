/** Projecting a declaration onto shards: which shard an owner's prefix names, and a declaration split by it. */
module Routing {
  import opened Vocabulary
  import opened Syntax
  import opened EffectSets
  import opened Footprint

  const MAX_DEPTH: nat := 63

  // ------------------------------------------------------------------- the resolver

  /** The leading eight bytes of an address, high byte first. */
  function Head(owner: Address): nat { FromBe(owner.ToBytes()[..8]) }

  function Depth(bits: Byte): nat { if bits < MAX_DEPTH then bits else MAX_DEPTH }

  function Shifted(n: nat, down: nat): nat { if down == 0 then n else Shifted(n / 2, down - 1) }

  /** The top `depth` bits of a prefix: none at the root, where the shift is the full width. */
  function Path(owner: Address, depth: nat): nat
    requires depth <= 64
  {
    Shifted(Head(owner), 64 - depth)
  }

  /** The heap index of the leaf holding `owner`: its path, marked by its depth. */
  function ShardAt(owner: Address, depth: nat): nat
    requires depth <= 64
  {
    Pow2(depth) + Path(owner, depth)
  }

  function ShardOf(owner: Address, bits: Byte): nat { ShardAt(owner, Depth(bits)) }

  // --------------------------------------------------------------- bits of an address

  /** Bit `i` of some bytes, the high bit of the first byte first. */
  function Bit(bytes: Bytes, i: nat): nat
    requires i / 8 < |bytes|
  {
    Shifted(bytes[i / 8], 7 - i % 8) % 2
  }

  predicate SameTopBits(a: Address, b: Address, depth: nat)
    requires depth <= 64
  {
    forall i :: 0 <= i < depth ==> Bit(a.ToBytes(), i) == Bit(b.ToBytes(), i)
  }

  lemma {:induction false} ShiftsAdd(n: nat, j: nat, k: nat)
    ensures Shifted(Shifted(n, j), k) == Shifted(n, j + k)
    decreases j
  {
    if j > 0 {
      ShiftsAdd(n / 2, j - 1, k);
    }
  }

  function Doubled(n: nat, times: nat): nat { if times == 0 then n else 2 * Doubled(n, times - 1) }

  /** What sits above the bits shifted out does not disturb the ones left below it. */
  lemma {:induction false} ShiftsPass(high: nat, m: nat, low: nat, down: nat)
    requires down <= m
    ensures Shifted(Doubled(high, m) + low, down) == Doubled(high, m - down) + Shifted(low, down)
    decreases down
  {
    if down > 0 {
      assert (Doubled(high, m) + low) / 2 == Doubled(high, m - 1) + low / 2;
      ShiftsPass(high, m - 1, low / 2, down - 1);
    }
  }

  lemma {:induction false} DoubledEight(n: nat)
    ensures Doubled(n, 8) == 0x100 * n
  {
    assert Doubled(n, 4) == 2 * Doubled(n, 3) == 4 * Doubled(n, 2) == 8 * Doubled(n, 1) == 0x10 * n;
    assert Doubled(n, 8) == 2 * Doubled(n, 7) == 4 * Doubled(n, 6) == 8 * Doubled(n, 5) == 0x10 * Doubled(n, 4);
  }

  lemma {:induction false} BytesVanish(low: Byte)
    ensures Shifted(low, 8) == 0
  {
    DigitsLeave(low, 8);
    assert Pow2(8) == 0x100 by { ByteDigits(); }
  }

  lemma {:induction false} ByteDigits()
    ensures Pow2(8) == 0x100
  {
    assert Pow2(4) == 0x10;
  }

  /** A number of `k` digits has none left after a shift by `k`. */
  lemma {:induction false} DigitsLeave(n: nat, k: nat)
    ensures n < Pow2(k) ==> Shifted(n, k) == 0
    decreases k
  {
    if k > 0 {
      DigitsLeave(n / 2, k - 1);
    }
  }

  /** Bytes read high first, shifted down by whole bytes, are their own leading bytes. */
  lemma {:induction false} LeadingBytes(bytes: Bytes, k: nat)
    requires k <= |bytes|
    ensures Shifted(FromBe(bytes), 8 * (|bytes| - k)) == FromBe(bytes[..k])
    decreases |bytes| - k
  {
    if k == |bytes| {
      assert bytes[..k] == bytes;
    } else {
      hide Shifted;
      var init, last := bytes[..|bytes| - 1], bytes[|bytes| - 1];
      assert init[..k] == bytes[..k];
      LeadingBytes(init, k);
      DoubledEight(FromBe(init));
      ShiftsPass(FromBe(init), 8, last, 8);
      BytesVanish(last);
      ShiftsAdd(FromBe(bytes), 8, 8 * (|init| - k));
    }
  }

  /** The bit `r` places into the last of some bytes, read off the number they spell. */
  lemma {:induction false} LastByteBits(bytes: Bytes, r: nat)
    requires bytes != [] && r < 8
    ensures Shifted(FromBe(bytes), 7 - r) % 2 == Shifted(bytes[|bytes| - 1], 7 - r) % 2
  {
    hide Shifted;
    var above, last := FromBe(bytes[..|bytes| - 1]), bytes[|bytes| - 1];
    DoubledEight(above);
    ShiftsPass(above, 8, last, 7 - r);
    assert Doubled(above, r + 1) == 2 * Doubled(above, r);
  }

  /** A prefix's bits are its bytes' bits. */
  lemma {:induction false} PrefixBits(owner: Address, i: nat)
    requires i < 64
    ensures Shifted(Head(owner), 63 - i) % 2 == Bit(owner.ToBytes(), i)
  {
    hide Shifted, FromBe;
    var bytes := owner.ToBytes()[..8];
    var q, r := i / 8, i % 8;
    assert 63 - i == 8 * (7 - q) + (7 - r) && bytes[q] == owner.ToBytes()[q];
    LeadingBytes(bytes, q + 1);
    ShiftsAdd(FromBe(bytes), 8 * (7 - q), 7 - r);
    LastByteBits(bytes[..q + 1], r);
  }

  /** A level down, a path gains the next bit of the address at its end. */
  lemma {:induction false} PathsGrow(owner: Address, depth: nat)
    requires depth < 64
    ensures Path(owner, depth) == Path(owner, depth + 1) / 2
    ensures Path(owner, depth + 1) == 2 * Path(owner, depth) + Bit(owner.ToBytes(), depth)
  {
    ShiftsAdd(Head(owner), 63 - depth, 1);
    PrefixBits(owner, depth);
  }

  lemma {:induction false} RootPath(owner: Address)
    ensures Path(owner, 0) == 0
  {
    var bytes := owner.ToBytes()[..8];
    LeadingBytes(bytes, 0);
    assert bytes[..0] == [];
  }

  /** A path at some depth fits under the mark of that depth. */
  lemma {:induction false} PathsFit(owner: Address, depth: nat)
    requires depth <= 64
    ensures Path(owner, depth) < Pow2(depth)
    decreases depth
  {
    if depth == 0 {
      RootPath(owner);
    } else {
      PathsFit(owner, depth - 1);
      PathsGrow(owner, depth - 1);
    }
  }

  /** Two paths agree exactly where the bits they were read from do. */
  lemma {:induction false} PathsAreTheirBits(a: Address, b: Address, depth: nat)
    requires depth <= 64
    ensures Path(a, depth) == Path(b, depth) <==> SameTopBits(a, b, depth)
    decreases depth
  {
    hide Bit, Path;
    if depth == 0 {
      RootPath(a);
      RootPath(b);
    } else {
      PathsAreTheirBits(a, b, depth - 1);
      PathsGrow(a, depth - 1);
      PathsGrow(b, depth - 1);
      BitsAreBits(a.ToBytes(), depth - 1);
      BitsAreBits(b.ToBytes(), depth - 1);
    }
  }

  lemma {:induction false} BitsAreBits(bytes: Bytes, i: nat)
    requires i / 8 < |bytes|
    ensures Bit(bytes, i) <= 1
  {}

  /** Shard identities: two addresses share one at a depth exactly where their top bits agree,
      no identity serves two depths, and each is half its child's. */
  lemma {:induction false} ShardsFollowPrefixes(a: Address, b: Address, depth: nat, other: nat)
    requires depth <= MAX_DEPTH && other <= MAX_DEPTH
    ensures ShardAt(a, depth) == ShardAt(b, depth) <==> SameTopBits(a, b, depth)
    ensures depth != other ==> ShardAt(a, depth) != ShardAt(b, other)
    ensures ShardAt(a, depth) == ShardAt(a, depth + 1) / 2
  {
    hide Path, SameTopBits;
    PathsAreTheirBits(a, b, depth);
    PathsFit(a, depth);
    PathsFit(b, other);
    PathsGrow(a, depth);
    if depth < other {
      PowersGrow(depth + 1, other);
    } else if other < depth {
      PowersGrow(other + 1, depth);
    }
  }

  /** The shards are a heap: the root is one, each further bit of an address descends to the child on
      its side, and an address is placed as many bits down as asked, at most sixty-three. */
  lemma {:induction false} ShardsDescend(owner: Address, depth: nat, bits: Byte)
    requires depth < 64
    ensures ShardAt(owner, 0) == 1
    ensures ShardAt(owner, depth + 1) == 2 * ShardAt(owner, depth) + Bit(owner.ToBytes(), depth)
    ensures depth == bits || (depth == 63 && bits > 63) ==> ShardOf(owner, bits) == ShardAt(owner, depth)
  {
    RootPath(owner);
    PathsGrow(owner, depth);
    hide Path;
  }

  // ------------------------------------------------------------------ the projection

  type Projection = map<nat, EffectSet>

  function Shard(target: EffectTarget, bits: Byte): nat { ShardOf(target.Owner(), bits) }

  function Under(out: Projection, shard: nat): EffectSet { if shard in out then out[shard] else map[] }

  /** What a projection must hold of a set folded so far: every target under the one shard its
      owner resolves to, with the modes and the reserve folded so far and the final width. */
  ghost predicate Projects(out: Projection, bits: Byte, soFar: EffectSet, final: EffectSet) {
    && (forall shard <- out, t <- out[shard] :: Shard(t, bits) == shard)
    && (forall t :: t in Under(out, Shard(t, bits)) <==> t in soFar)
    && (forall t <- soFar :: At(Under(out, Shard(t, bits)), t) == soFar[t].(width := At(final, t).width))
  }

  lemma {:induction false} WidthsNarrow(s: EffectSet, entries: seq<Bounded>, t: EffectTarget)
    requires Fold(s, entries).Ok? && At(s, t).width <= MAX_SLOT_WIDTH
    ensures At(Fold(s, entries).value, t).width <= At(s, t).width
    decreases |entries|
  {
    if entries != [] {
      WidthsNarrow(Insert(s, entries[0]).value, entries[1..], t);
    }
  }

  lemma {:induction false} FoldNext(entries: seq<Bounded>, i: nat)
    requires i < |entries| && Fold(map[], entries).Ok?
    ensures Fold(map[], entries[..i]).Ok?
    ensures Insert(Fold(map[], entries[..i]).value, entries[i]).Ok?
    ensures Fold(map[], entries[..i + 1]) == Insert(Fold(map[], entries[..i]).value, entries[i])
  {
    FoldPrefix(map[], entries, i);
    FoldPrefix(map[], entries, i + 1);
    assert entries[..i + 1] == entries[..i] + [entries[i]];
    FoldAppend(map[], entries[..i], [entries[i]]);
    assert [entries[i]][1..] == [];
  }

  lemma {:induction false} FoldPrefix(s: EffectSet, entries: seq<Bounded>, i: nat)
    requires i <= |entries| && Fold(s, entries).Ok?
    ensures Fold(s, entries[..i]).Ok?
    decreases i
  {
    if i > 0 {
      assert entries[..i][1..] == entries[1..][..i - 1];
      FoldPrefix(Insert(s, entries[0]).value, entries[1..], i - 1);
    }
  }

  /** One access lands on its owner's shard, at the width the whole declaration states for it. */
  lemma {:induction false} LandsOnItsShard(
      out: Projection, bits: Byte, soFar: EffectSet, final: EffectSet, entry: Bounded)
    requires Projects(out, bits, soFar, final) && Insert(soFar, entry).Ok?
    requires At(final, entry.effect.target).width <= MAX_SLOT_WIDTH
    ensures var t := entry.effect.target;
            var landed := Insert(Under(out, Shard(t, bits)), Bounded(entry.effect, At(final, t).width));
            landed.Ok? && Projects(out[Shard(t, bits) := landed.value], bits, Insert(soFar, entry).value, final)
  {
    hide Shard;
    var t := entry.effect.target;
    var shard := Shard(t, bits);
    var here := Under(out, shard);
    var landed := Insert(here, Bounded(entry.effect, At(final, t).width));
    assert t in here <==> t in soFar;
    assert At(here, t).modes == At(soFar, t).modes && At(here, t).reserved == At(soFar, t).reserved;
    assert landed.Ok?;
    var next, after := out[shard := landed.value], Insert(soFar, entry).value;
    forall u ensures u in Under(next, Shard(u, bits)) <==> u in after {
      assert u in Under(out, Shard(u, bits)) <==> u in soFar;
    }
    forall u | u in after ensures At(Under(next, Shard(u, bits)), u) == after[u].(width := At(final, u).width) {
      if u != t {
        assert u in soFar && At(Under(out, Shard(u, bits)), u) == soFar[u].(width := At(final, u).width);
      }
    }
  }

  /** A declaration split by shard: no fold conflicts, each shard holds only owners it is, and
      together they hold the declared set, target for target. */
  method PerShard(entries: seq<Bounded>, final: EffectSet, bits: Byte) returns (out: Projection)
    requires Fold(map[], entries) == Ok(final)
    ensures forall shard <- out, t <- out[shard] :: Shard(t, bits) == shard && t in final && out[shard][t] == final[t]
    ensures forall t <- final :: Shard(t, bits) in out && t in out[Shard(t, bits)]
  {
    hide Shard;
    out := map[];
    assert entries[..0] == [];
    for i := 0 to |entries|
      invariant Fold(map[], entries[..i]).Ok?
      invariant Projects(out, bits, Fold(map[], entries[..i]).value, final)
    {
      var effect := entries[i].effect;
      FoldNext(entries, i);
      WidthsNarrow(map[], entries, effect.target);
      LandsOnItsShard(out, bits, Fold(map[], entries[..i]).value, final, entries[i]);
      var shard := Shard(effect.target, bits);
      var landed := Insert(Under(out, shard), Bounded(effect, At(final, effect.target).width));
      out := out[shard := landed.value];
    }
    assert entries[..|entries|] == entries;
    forall shard, t | shard in out && t in out[shard]
      ensures Shard(t, bits) == shard && t in final && out[shard][t] == final[t]
    {
      assert t in Under(out, Shard(t, bits));
      assert At(Under(out, shard), t) == final[t].(width := At(final, t).width);
    }
  }
}
