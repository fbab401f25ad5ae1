/** Keys, values, modes and effect targets: the words every other module speaks. */
module Vocabulary {

  type Byte = n: int | 0 <= n < 0x100
  type Word16 = n: int | 0 <= n < 0x1_0000
  type Word32 = n: int | 0 <= n < 0x1_0000_0000
  type Word64 = n: int | 0 <= n < 0x1_0000_0000_0000_0000
  type Word128 = n: int | 0 <= n < 0x1_0000_0000_0000_0000_0000_0000_0000_0000
  type Bytes = seq<Byte>

  const MAX_WORD32: Word32 := 0xFFFF_FFFF
  const MAX_WORD64: Word64 := 0xFFFF_FFFF_FFFF_FFFF
  const MAX_WORD128: Word128 := 0xFFFF_FFFF_FFFF_FFFF_FFFF_FFFF_FFFF_FFFF

  datatype Option<+T> = None | Some(value: T)

  datatype Result<+T, +E> = Ok(value: T) | Err(error: E) {
    predicate IsFailure() { Err? }
    function PropagateFailure<U>(): Result<U, E>
      requires Err?
    {
      Err(error)
    }
    function Extract(): T
      requires Ok?
    {
      value
    }
  }

  /** Sum on 32 bits that stops at the top instead of wrapping. */
  function SaturatingAdd32(a: Word32, b: nat): Word32 {
    if a + b > MAX_WORD32 then MAX_WORD32 else a + b
  }

  /** Sum on 64 bits that stops at the top instead of wrapping. */
  function SaturatingAdd64(a: nat, b: nat): nat { if a + b > MAX_WORD64 then MAX_WORD64 else a + b }

  function Pow2(n: nat): (p: nat)
    ensures p > 0
  {
    if n == 0 then 1 else 2 * Pow2(n - 1)
  }

  // ---------------------------------------------------------------- addresses

  /** Thirty-one bytes of derivation. */
  type Body = s: Bytes | |s| == 31 witness seq(31, _ => 0)

  datatype AddressClass = Principal | Component | Package | Resource | Native | Restricted {
    function Tag(): Byte {
      match this
      case Principal => 1
      case Component => 2
      case Package => 3
      case Resource => 4
      case Native => 5
      case Restricted => 6
    }
  }

  datatype Address = Address(body: Body, class_: AddressClass) {
    predicate IsResource() { class_.Resource? || class_.Restricted? }
    predicate IsCallable() { class_.Principal? || class_.Component? }
    /** The thirty-two wire bytes: the class tag trails the body. */
    function ToBytes(): (b: Bytes)
      ensures |b| == 32
    {
      body + [class_.Tag()]
    }
  }

  type ResourceAddr = a: Address | a.IsResource() witness Address(seq(31, _ => 0), Resource)
  type CallTarget = a: Address | a.IsCallable() witness Address(seq(31, _ => 0), Principal)

  /** An address is its bytes: two addresses with the same bytes are one. */
  lemma {:induction false} AddressBytesInjective(a: Address, b: Address)
    requires a.ToBytes() == b.ToBytes()
    ensures a == b
  {
    assert a.ToBytes()[..31] == a.body && b.ToBytes()[..31] == b.body;
    assert a.ToBytes()[31] == a.class_.Tag() && b.ToBytes()[31] == b.class_.Tag();
  }

  /** A leaf key: the owner prefix, then the digest naming the cell under it. */
  datatype SubstateKey = SubstateKey(owner: Address, local: Bytes)

  // ------------------------------------------------------------------- values

  /** The words a type refusal names what it wanted and what it found by. */
  datatype KindName =
    | BoolKind | U64Kind | U128Kind | U256Kind | BytesKind | AddressKind | KeyKind | TupleKind | ListKind | BucketKind
    | IntegerKind | ComparableKind | InstanceBucketKind | ResourceKindName | ClaimKind | BadgeKind | IdentityKind

  datatype EdgeContent = FungibleEdge | InstanceEdge(ids: seq<Word64>)

  datatype Value =
    | VBool(flag: bool)
    | VU64(word: Word64)
    | VU128(wide: Word128)
    | VU256(scaled: Bytes)
    | VBytes(bytes: Bytes)
    | VAddress(address: Address)
    | VKey(key: SubstateKey)
    | VTuple(fields: seq<Value>)
    | VList(elements: seq<Value>)
    | VBucket(resource: ResourceAddr, content: EdgeContent)
  {
    /** The kind a refusal names this value by. */
    function Kind(): KindName {
      match this
      case VBool(_) => BoolKind
      case VU64(_) => U64Kind
      case VU128(_) => U128Kind
      case VU256(_) => U256Kind
      case VBytes(_) => BytesKind
      case VAddress(_) => AddressKind
      case VKey(_) => KeyKind
      case VTuple(_) => TupleKind
      case VList(_) => ListKind
      case VBucket(_, _) => BucketKind
    }

    /** The values one level down. */
    function Parts(): seq<Value> {
      match this
      case VTuple(fields) => fields
      case VList(elements) => elements
      case _ => []
    }
  }

  // ------------------------------------------------------------------- claims

  /** Who or what a proof is about, and which instance of it. */
  datatype Claim = Claim(subject: Address, instance: Option<Word64>) {
    function Badge(): Option<ResourceAddr> {
      if subject.IsResource() then Some(subject) else None
    }
    /** What proving this also proves: an instance holder holds the badge. */
    function Widened(): Option<Claim> {
      if instance.Some? then Some(Claim(subject, None)) else None
    }
  }

  function ClaimOfAddress(a: Address): Option<Claim> {
    if a.IsResource() || a.IsCallable() then Some(Claim(a, None)) else None
  }

  /** The claim a value names, or nothing where it names none. */
  function ClaimOf(v: Value): Option<Claim> {
    match v
    case VAddress(a) => ClaimOfAddress(a)
    case VTuple(fs) =>
      if |fs| == 2 && fs[0].VAddress? && fs[1].VU64? && fs[0].address.IsResource()
      then Some(Claim(fs[0].address, Some(fs[1].word)))
      else None
    case _ => None
  }

  // ---------------------------------------------------------- modes and targets

  datatype Moves = In | Out | Both

  datatype Mode = Read | Delta(moves: Moves) | Reserve(amount: Word128) | Write(writes: Moves) {
    /** The directions value moves in, or nothing where none moves. */
    function Directions(): Option<Moves> {
      match this
      case Read => None
      case Delta(m) => Some(m)
      case Write(m) => Some(m)
      case Reserve(_) => Some(Out)
    }
    function Kind(): ModeKind {
      match this
      case Read => ReadKind
      case Delta(_) => DeltaKind
      case Reserve(_) => ReserveKind
      case Write(_) => WriteKind
    }
  }

  datatype ModeKind = ReadKind | DeltaKind | ReserveKind | WriteKind

  datatype Presence = Either | Absent | Present

  datatype EffectTarget =
    | Point(key: SubstateKey)
    | Entry(owner: Address, collection: Bytes, order: Word128)
    | Range(owner: Address, collection: Bytes, lo: Word128, hi: Word128, cap: Word32)
  {
    function Owner(): Address {
      if Point? then key.owner else owner
    }
  }

  datatype Effect = Effect(target: EffectTarget, mode: Mode)
}
