/** The declared forms: rules, granted rules, expressions, targets and clauses. */
module Syntax {
  import opened Vocabulary

  // -------------------------------------------------------------------- rules

  /** A threshold over leaves; the empty threshold spells the two constants. */
  datatype Rule<+L> = Require(leaf: L) | CountOf(count: Byte, rules: seq<Rule<L>>)

  datatype Holding = Balance | AnyInstance | Instance(id: Word64)

  datatype SealedLeaf = ClaimLeaf(claim: Claim) | Held(badge: ResourceAddr, holding: Holding)

  type StoredRule = Rule<SealedLeaf>

  datatype ResourceKind = Fungible | NonFungible {
    function Tag(): Byte { if Fungible? then 0 else 1 }
  }

  /** The behaviours a resource's granted rules govern, in discriminant order. */
  datatype Behaviour = Mint | Burn | Withdraw | Deposit | Halt | Recall {
    function Rank(): nat {
      match this
      case Mint => 0
      case Burn => 1
      case Withdraw => 2
      case Deposit => 3
      case Halt => 4
      case Recall => 5
    }
  }

  /** The subject a granted rule names before the issuing instance is known. */
  datatype GrantSubject =
    | IssuerSelf
    | IssuerBadge(mark: Bytes, kind: ResourceKind, grants: seq<GrantEntry>)
    | IssuerInstance(mark: Bytes, id: Word64, grants: seq<GrantEntry>)
    | IssuerConfig(slot: Word32)

  datatype GrantEntry = GrantEntry(behaviour: Behaviour, rule: Rule<GrantSubject>)

  type GrantsExpr = seq<GrantEntry>

  datatype SealedEntry = SealedEntry(behaviour: Behaviour, rule: StoredRule)

  type ResourceGrants = seq<SealedEntry>

  datatype GrantsError =
    | NoSuchField(slot: Word32)
    | NotAClaim(slot: Word32)
    | PastTheCaps
    | BadgeChainTooDeep
    | WrongQuestion(behaviour: Behaviour)
    | RestatesAbsence(behaviour: Behaviour)

  // -------------------------------------------------------------- expressions

  datatype SlotRef = Fixed(slot: Word16) | Reached(named: Expr)

  datatype Expr =
    | Literal(value: Value)
    | Arg(index: Word32)
    | Config(index: Word32)
    | Binding(index: Word32)
    | SelfAddr
    | SelfRecord
    | Field(inner: Expr, field: Word32)
    | ResourceOf(inner: Expr)
    | IdsOf(inner: Expr)
    | Len(inner: Expr)
    | Only(inner: Expr)
    | ListOf(elements: seq<Expr>)
    | TupleOf(elements: seq<Expr>)
    | NfBucket(resource: Expr, ids: Expr)
    | Lookup(table: Expr, probe: Expr)
    | SelfResource(kind: ResourceKind, material: seq<Expr>, grants: GrantsExpr)
    | ChildKey(owner: Expr, slot: SlotRef, material: seq<Expr>)
    | FreshId(draw: Word32)
    | FreshKey(draw: Word32)
    | Pack(high: Expr, low: Expr)
    | OrderKey(owner: Expr, fixed: Word16, material: seq<Expr>)
    | Add(left: Expr, right: Expr)
    | Not(inner: Expr)
    | And(left: Expr, right: Expr)
    | Or(left: Expr, right: Expr)
    | Eq(left: Expr, right: Expr)
    | Lt(left: Expr, right: Expr)
    | Contains(table: Expr, probe: Expr)
    | If(cond: Expr, then_: Expr, otherwise: Expr)

  /** The expression a reached slot is named by, where it is one. */
  function ReachedPart(slot: SlotRef): seq<Expr> {
    match slot
    case Fixed(_) => []
    case Reached(named) => [named]
  }

  /** Every direct subexpression, left to right. */
  function Children(e: Expr): (r: seq<Expr>)
    ensures forall i :: 0 <= i < |r| ==> r[i] < e
  {
    match e
    case Literal(_) => []
    case Arg(_) => []
    case Config(_) => []
    case Binding(_) => []
    case SelfAddr => []
    case SelfRecord => []
    case FreshId(_) => []
    case FreshKey(_) => []
    case Field(inner, _) => [inner]
    case ResourceOf(inner) => [inner]
    case IdsOf(inner) => [inner]
    case Len(inner) => [inner]
    case Only(inner) => [inner]
    case Not(inner) => [inner]
    case Lookup(table, probe) => [table, probe]
    case Contains(table, probe) => [table, probe]
    case Pack(high, low) => [high, low]
    case NfBucket(resource, ids) => [resource, ids]
    case Add(left, right) => [left, right]
    case And(left, right) => [left, right]
    case Or(left, right) => [left, right]
    case Eq(left, right) => [left, right]
    case Lt(left, right) => [left, right]
    case If(cond, then_, otherwise) => [cond, then_, otherwise]
    case ListOf(elements) => elements
    case TupleOf(elements) => elements
    case SelfResource(_, material, _) => material
    case ChildKey(owner, slot, material) => [owner] + ReachedPart(slot) + material
    case OrderKey(owner, _, material) => [owner] + material
  }

  predicate IsInputLeaf(e: Expr) { e.Arg? || e.Binding? }

  datatype TargetExpr =
    | PointAt(key: Expr)
    | EntryAt(owner: Expr, collection: SlotRef, material: seq<Expr>, order: Expr)
    | RangeOver(owner: Expr, collection: SlotRef, material: seq<Expr>, lo: Expr, hi: Expr, cap: Expr)

  /** Every expression a target is built from. */
  function TargetParts(t: TargetExpr): seq<Expr> {
    match t
    case PointAt(key) => [key]
    case EntryAt(owner, collection, material, order) =>
      [owner] + ReachedPart(collection) + material + [order]
    case RangeOver(owner, collection, material, lo, hi, cap) =>
      [owner] + ReachedPart(collection) + material + [lo, hi, cap]
  }

  datatype ModeExpr = ReadMode | DeltaMode(moves: Moves) | ReserveMode(amount: Expr) | WriteMode(writes: Moves) {
    /** The directions value moves in under this mode, or nothing. */
    function Directions(): Option<Moves> {
      match this
      case ReadMode => None
      case DeltaMode(m) => Some(m)
      case WriteMode(m) => Some(m)
      case ReserveMode(_) => Some(Out)
    }
  }

  /** A declared rule's leaf: a named claim, a rule held in a cell, or a cell's presence. */
  datatype RuleLeaf =
    | NamedClaim(claim: Expr)
    | StoredAt(cell: Expr)
    | PresenceOf(target: TargetExpr, wanted: Presence)

  type RuleExpr = Rule<RuleLeaf>

  /** The leaf a declared one evaluates into. */
  datatype JudgedLeaf =
    | JudgedClaim(claim: Claim)
    | JudgedStored(cell: SubstateKey)
    | JudgedPresence(target: EffectTarget, wanted: Presence)
    | JudgedSigned(cell: SubstateKey, keys: seq<Claim>)

  datatype Clause =
    | Access(guard: Option<Expr>, target: TargetExpr, mode: ModeExpr,
             denomination: Option<Expr>, reach: Option<Behaviour>)
    | ForEach(guard: Option<Expr>, list: Expr, body: seq<Clause>)
    | Requires(guard: Option<Expr>, rule: RuleExpr)
    | Proves(guard: Option<Expr>, claim: Expr)

  // ------------------------------------------------------------ hashing seam

  datatype Domain =
    | ChildDomain | CollectionDomain | OrderDomain | FreshDomain
    | ResourceDomain | GrantsDomain | IntentDomain | GraphNodeDomain | GraphDomain

  /** The hash and the canonical encodings everything derives through. */
  datatype Seam = Seam(hash: (Domain, seq<Bytes>) -> Bytes,
                       encode: Value -> Bytes,
                       encodeGrants: ResourceGrants -> Bytes)
  {
    /** The leading `n` bytes of a digest. */
    static function Lead(digest: Bytes, n: nat): (b: Bytes)
      ensures |b| == n
    {
      if |digest| >= n then digest[..n] else digest + seq(n - |digest|, _ => 0)
    }

    function ChildLocal(owner: Address, slot: Word16, material: seq<Bytes>): Bytes {
      hash(ChildDomain, [owner.ToBytes(), Le16(slot)] + material)
    }

    function ChildKeyOf(owner: Address, slot: Word16, material: seq<Bytes>): SubstateKey {
      SubstateKey(owner, ChildLocal(owner, slot, material))
    }

    function CollectionOf(owner: Address, slot: Word16, material: seq<Bytes>): Bytes {
      hash(CollectionDomain, [owner.ToBytes(), Le16(slot)] + material)
    }

    function OrderOf(owner: Address, slot: Word16, material: seq<Bytes>): Word128 {
      FromBe16(Lead(hash(OrderDomain, [owner.ToBytes(), Le16(slot)] + material), 16))
    }

    function FreshDigest(identity: Bytes, node: Word32, draw: Word32): Bytes {
      hash(FreshDomain, [identity, Le32(node), Le32(draw)])
    }

    function FreshIdOf(identity: Bytes, node: Word32, draw: Word32): Word64 {
      FromLe8(Lead(FreshDigest(identity, node, draw), 8))
    }

    /** The principal vault cell for `resource` under `owner`. */
    function VaultCell(owner: Address, resource: ResourceAddr): SubstateKey {
      ChildKeyOf(owner, VAULT, [encode(VAddress(resource))])
    }
  }

  const VAULT: Word16 := 1
  const NF_VAULT: Word16 := 5
  const PACKAGE_SLOT_BASE: Word16 := 16
  const KERNEL_SLOT_BASE: Word16 := 0xFFF5

  /** Two bytes, low first. */
  function Le16(n: Word16): (b: Bytes)
    ensures |b| == 2
  {
    [n % 0x100, n / 0x100]
  }

  /** Four bytes, low first. */
  function Le32(n: Word32): (b: Bytes)
    ensures |b| == 4
  {
    [n % 0x100, n / 0x100 % 0x100, n / 0x1_0000 % 0x100, n / 0x100_0000]
  }

  function FromBe(b: Bytes): (n: nat)
    decreases |b|
  {
    if b == [] then 0 else 0x100 * FromBe(b[..|b| - 1]) + b[|b| - 1]
  }

  function Pow256(n: nat): (p: nat)
    ensures p > 0
  {
    if n == 0 then 1 else 0x100 * Pow256(n - 1)
  }

  lemma {:induction false} FromBeBounded(b: Bytes)
    ensures FromBe(b) < Pow256(|b|)
    decreases |b|
  {
    if b != [] {
      FromBeBounded(b[..|b| - 1]);
    }
  }

  function FromBe16(b: Bytes): Word128
    requires |b| == 16
  {
    FromBeBounded(b);
    assert Pow256(8) == 0x1_0000_0000_0000_0000;
    assert Pow256(12) == 0x1_0000_0000_0000_0000_0000_0000;
    assert Pow256(16) == 0x1_0000_0000_0000_0000_0000_0000_0000_0000;
    FromBe(b)
  }

  function Reversed(b: Bytes): (r: Bytes)
    ensures |r| == |b|
  {
    seq(|b|, i requires 0 <= i < |b| => b[|b| - 1 - i])
  }

  function FromLe8(b: Bytes): Word64
    requires |b| == 8
  {
    FromBeBounded(Reversed(b));
    assert Pow256(8) == 0x1_0000_0000_0000_0000;
    FromBe(Reversed(b))
  }
}
