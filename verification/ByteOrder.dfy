/** How widths and digests are read as numbers: low byte first or high byte first, leading bytes only. */
module ByteOrder {
  import opened Vocabulary
  import opened Syntax

  /** The number `b` spells low byte first. */
  function FromLe(b: Bytes): nat
    decreases |b|
  {
    if b == [] then 0 else b[0] + 0x100 * FromLe(b[1..])
  }

  /** A width is spelled low byte first, so two widths are never spelled alike. */
  lemma {:induction false} WidthsSpellLowFirst(narrow: Word16, wide: Word32)
    ensures FromLe(Le16(narrow)) == narrow
    ensures FromLe(Le32(wide)) == wide
  {
    hide FromLe;
    LowestFirst(Le16(narrow));
    LowestFirst(Le16(narrow)[1..]);
    var b := Le32(wide);
    LowestFirst(b);
    LowestFirst(b[1..]);
    LowestFirst(b[2..]);
    LowestFirst(b[3..]);
    WideParts(wide);
    assert b[1..][1..] == b[2..] && b[2..][1..] == b[3..] && b[3..][1..] == [] && Le16(narrow)[1..][1..] == [];
    NothingSpellsZero();
  }

  lemma {:induction false} LowestFirst(b: Bytes)
    requires b != []
    ensures FromLe(b) == b[0] as int + 0x100 * FromLe(b[1..])
  {}

  lemma {:induction false} NothingSpellsZero()
    ensures FromLe([]) == 0
  {}

  lemma {:induction false} WideParts(n: nat)
    ensures n == n % 0x100 + 0x100 * (n / 0x100 % 0x100 + 0x100 * (n / 0x1_0000 % 0x100 + 0x100 * (n / 0x100_0000)))
  {
    assert n / 0x100 / 0x100 == n / 0x1_0000 && n / 0x1_0000 / 0x100 == n / 0x100_0000;
  }

  /** High byte first is low byte first, read from the other end. */
  lemma {:induction false} OrdersMirror(b: Bytes)
    ensures FromBe(Reversed(b)) == FromLe(b)
    decreases |b|
  {
    if b != [] {
      var r := Reversed(b);
      assert r[..|r| - 1] == Reversed(b[1..]);
      OrdersMirror(b[1..]);
    }
  }

  /** A digest long enough lends its own leading bytes, and a drawn number is those read low byte first. */
  lemma {:induction false} DigestsLendTheirLead(digest: Bytes, rest: Bytes, n: nat)
    requires |digest| == n
    ensures Seam.Lead(digest + rest, n) == digest
    ensures n == 8 ==> FromLe8(digest) == FromLe(digest)
  {
    assert (digest + rest)[..n] == digest;
    OrdersMirror(digest);
  }
}
