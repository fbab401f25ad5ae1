/** What an expression evaluates to and what deciding it costs, with no ceiling on the work. */
module Evaluation {
  import opened Vocabulary
  import opened Syntax

  const MAX_EXPR_DEPTH: nat := 32
  const BYTES_PER_WORK_UNIT: nat := 8
  const WORK_PER_DERIVATION: nat := 8
  const MAX_IDS_PER_EDGE: nat := 64
  const MAX_EFFECTS_PER_SIGNATURE: nat := 4096

  datatype EvalError =
    | ArgOutOfRange(index: Word32)
    | ConfigOutOfRange(index: Word32)
    | BindingOutOfRange(index: Word32)
    | UnkeyedReach
    | UnreachableSlot(named: Word64)
    | TypeMismatch(wanted: KindName, found: KindName)
    | NotAResource(class_: AddressClass)
    | GrantsUnresolvable(refusal: GrantsError)
    | RecordMalformed
    | FieldOutOfRange(index: Word32, arity: nat)
    | CapTooWide(cap: Word128)
    | AddOverflow
    | NotSingleton(len: nat)
    | LookupMiss
    | LookupNotPairs
    | ForEachTooLong(len: nat)
    | ProvesPastCap
    | ExpressionTooDeep
    | ClausesTooDeep
    | TooManyEffects
    | TooMuchWork
    | EnvelopeTooMuchWork
    | InvalidRange
    | TooManyIds(len: nat)
    | DuplicateId(id: Word64)
    | ReserveOverflow

  type Outcome<+T> = Result<T, EvalError>

  /** Everything an expression evaluates over but the enclosing loops' elements. */
  datatype Inputs = Inputs(self: CallTarget,
                           args: seq<Value>,
                           config: seq<Value>,
                           leaf: Option<Bytes>,
                           node: Word32,
                           identity: Bytes,
                           widths: Word16 -> Word32,
                           issued: (ResourceKind, seq<Bytes>, GrantsExpr) -> Result<ResourceAddr, GrantsError>,
                           seam: Seam)

  /** A verdict and the units of work it took to reach it. */
  datatype Priced<+T> = Priced(result: Outcome<T>, units: nat) {
    predicate IsFailure() { result.Err? }
    function PropagateFailure<U>(): Priced<U>
      requires IsFailure()
    {
      Priced(Err(result.error), units)
    }
    function Extract(): (T, nat)
      requires !IsFailure()
    {
      (result.value, units)
    }
    /** The same verdict, reached after `spent` units had gone. */
    function Plus(spent: nat): Priced<T> { Priced(result, spent + units) }
  }

  /** A value handed out in place, or one built for the caller to keep. */
  datatype Answer = Answer(value: Value, borrowed: bool)

  // ------------------------------------------------------------------ readers

  function Mismatch<T>(wanted: KindName, v: Value): Outcome<T> { Err(TypeMismatch(wanted, v.Kind())) }

  function AsBool(v: Value): Outcome<bool> { if v.VBool? then Ok(v.flag) else Mismatch(BoolKind, v) }

  function AsU64(v: Value): Outcome<Word64> { if v.VU64? then Ok(v.word) else Mismatch(U64Kind, v) }

  function AsU128(v: Value): Outcome<Word128> {
    if v.VU64? then Ok(v.word) else if v.VU128? then Ok(v.wide) else Mismatch(U128Kind, v)
  }

  function AsCap(v: Value): Outcome<Word32> {
    var cap :- AsU128(v);
    if cap <= MAX_WORD32 then Ok(cap) else Err(CapTooWide(cap))
  }

  function AsAddress(v: Value): Outcome<Address> { if v.VAddress? then Ok(v.address) else Mismatch(AddressKind, v) }

  function AsKey(v: Value): Outcome<SubstateKey> { if v.VKey? then Ok(v.key) else Mismatch(KeyKind, v) }

  function AsTuple(v: Value): Outcome<seq<Value>> { if v.VTuple? then Ok(v.fields) else Mismatch(TupleKind, v) }

  function AsList(v: Value): Outcome<seq<Value>> { if v.VList? then Ok(v.elements) else Mismatch(ListKind, v) }

  function AsResource(a: Address): Outcome<ResourceAddr> {
    if a.IsResource() then Ok(a) else Err(NotAResource(a.class_))
  }

  function AsBucket(v: Value): Outcome<(ResourceAddr, EdgeContent)> {
    if v.VBucket? then Ok((v.resource, v.content)) else Mismatch(BucketKind, v)
  }

  function EdgeIds(content: EdgeContent): Outcome<Value> {
    match content
    case InstanceEdge(ids) => Ok(VList(seq(|ids|, i requires 0 <= i < |ids| => VU64(ids[i]))))
    case FungibleEdge => Err(TypeMismatch(InstanceBucketKind, BucketKind))
  }

  function Count(elements: seq<Value>): Value {
    VU64(if |elements| <= MAX_WORD64 then |elements| else MAX_WORD64)
  }

  function Sole(elements: seq<Value>): Outcome<Value> {
    if |elements| == 1 then Ok(elements[0]) else Err(NotSingleton(|elements|))
  }

  function FieldAt(fields: seq<Value>, index: Word32): Outcome<Value> {
    if index < |fields| then Ok(fields[index]) else Err(FieldOutOfRange(index, |fields|))
  }

  function ArgAt(env: Inputs, index: Word32): Outcome<Value> {
    if index < |env.args| then Ok(env.args[index]) else Err(ArgOutOfRange(index))
  }

  function ConfigAt(env: Inputs, index: Word32): Outcome<Value> {
    if index < |env.config| then Ok(env.config[index]) else Err(ConfigOutOfRange(index))
  }

  /** The element `index` loops out from the innermost. */
  function BindingAt(bindings: seq<Value>, index: Word32): Outcome<Value> {
    if index < |bindings| then Ok(bindings[|bindings| - 1 - index]) else Err(BindingOutOfRange(index))
  }

  // --------------------------------------------------------------- operations

  /** What a walk over a value visits. */
  function Walked(v: Value): (n: nat)
    ensures n > 0
    decreases v
  {
    match v
    case VBytes(bytes) => 1 + |bytes| / BYTES_PER_WORK_UNIT
    case VTuple(fields) => 1 + WalkedAll(fields)
    case VList(elements) => 1 + WalkedAll(elements)
    case _ => 1
  }

  function WalkedAll(vs: seq<Value>): nat
    decreases vs
  {
    if vs == [] then 0 else Walked(vs[0]) + WalkedAll(vs[1..])
  }

  /** Whether a bucket sits anywhere in a value. */
  predicate HoldsBucket(v: Value)
    decreases v
  {
    match v
    case VBucket(_, _) => true
    case VTuple(fields) => exists i :: 0 <= i < |fields| && HoldsBucket(fields[i])
    case VList(elements) => exists i :: 0 <= i < |elements| && HoldsBucket(elements[i])
    case _ => false
  }

  /** Structural equality between two values of one kind, buckets refused. */
  function Equals(left: Value, right: Value): Outcome<Value> {
    if HoldsBucket(left) || HoldsBucket(right) then Err(TypeMismatch(ComparableKind, BucketKind))
    else if left.Kind() != right.Kind() then Err(TypeMismatch(left.Kind(), right.Kind()))
    else Ok(VBool(left == right))
  }

  function Sum(left: Value, right: Value): Outcome<Value> {
    if left.VU64? then
      if !right.VU64? then Mismatch(U64Kind, right)
      else if left.word + right.word > MAX_WORD64 then Err(AddOverflow)
      else Ok(VU64(left.word + right.word))
    else if left.VU128? then
      if !right.VU128? then Mismatch(U128Kind, right)
      else if left.wide + right.wide > MAX_WORD128 then Err(AddOverflow)
      else Ok(VU128(left.wide + right.wide))
    else Mismatch(IntegerKind, left)
  }

  function LessThan(left: Value, right: Value): Outcome<Value> {
    if left.VU64? then
      if right.VU64? then Ok(VBool(left.word < right.word)) else Mismatch(U64Kind, right)
    else if left.VU128? then
      if right.VU128? then Ok(VBool(left.wide < right.wide)) else Mismatch(U128Kind, right)
    else Mismatch(IntegerKind, left)
  }

  /** The high half packed above the low one. */
  function PackWords(high: Word64, low: Word64): Word128 { high * 0x1_0000_0000_0000_0000 + low }

  /** The first matching pair's value, each comparison paid for. */
  function Find(pairs: seq<Value>, key: Value): Priced<Option<Value>> {
    if pairs == [] then Priced(Ok(None), 0)
    else if !(pairs[0].VTuple? && |pairs[0].fields| == 2) then Priced(Err(LookupNotPairs), Walked(key))
    else if pairs[0].fields[0] == key then Priced(Ok(Some(pairs[0].fields[1])), Walked(key))
    else Find(pairs[1..], key).Plus(Walked(key))
  }

  /** A list read as an id set, after the ids of `seen`. */
  function IdsAfter(values: seq<Value>, seen: seq<Word64>): Outcome<seq<Word64>>
    decreases |values|
  {
    if values == [] then
      if |seen| <= MAX_IDS_PER_EDGE then Ok(seen) else Err(TooManyIds(|seen|))
    else
      var id :- AsU64(values[0]);
      if id in seen then Err(DuplicateId(id)) else IdsAfter(values[1..], seen + [id])
  }

  /** The band an argument-named slot may reach: a cell value is kept at. */
  function ReachableSlot(named: Word64, point: bool): Outcome<Word16> {
    if named >= 0x1_0000 then Err(UnreachableSlot(named))
    else if (if named >= PACKAGE_SLOT_BASE then named < KERNEL_SLOT_BASE
             else named == (if point then VAULT else NF_VAULT))
    then Ok(named)
    else Err(UnreachableSlot(named))
  }

  function IssuedAddress(env: Inputs, kind: ResourceKind, material: seq<Bytes>, grants: GrantsExpr): Outcome<Value> {
    match env.issued(kind, material, grants)
    case Err(refusal) => Err(GrantsUnresolvable(refusal))
    case Ok(address) => Ok(VAddress(address))
  }

  // ------------------------------------------------- operands read by their kind

  /** An operand's verdict, read as a flag. */
  function Flag(p: Priced<Answer>): Priced<bool> {
    var (held, spent) :- p;
    Priced(AsBool(held.value), spent)
  }

  function Word(p: Priced<Answer>): Priced<Word64> {
    var (held, spent) :- p;
    Priced(AsU64(held.value), spent)
  }

  function Owner(p: Priced<Answer>): Priced<Address> {
    var (held, spent) :- p;
    Priced(AsAddress(held.value), spent)
  }

  function Listed(p: Priced<Answer>): Priced<seq<Value>> {
    var (held, spent) :- p;
    Priced(AsList(held.value), spent)
  }

  /** Two operands, left before right. */
  function Operands(left: Priced<Answer>, right: Priced<Answer>): Priced<(Value, Value)> {
    var (a, spent) :- left;
    var (b, spent) :- right.Plus(spent);
    Priced(Ok((a.value, b.value)), spent)
  }

  // ------------------------------------------------ what each operator makes of them

  /** The terms that read a scalar off their operand. */
  predicate Reads(e: Expr) { e.ResourceOf? || e.IdsOf? || e.Len? || e.Not? }

  /** The terms that copy one part out of their operand. */
  predicate Projects(e: Expr) { e.Field? || e.Only? }

  predicate Gathers(e: Expr) { e.ListOf? || e.TupleOf? }

  predicate Scans(e: Expr) { e.Lookup? || e.Contains? }

  predicate Computes(e: Expr) { e.Add? || e.Lt? }

  predicate Decides(e: Expr) { e.And? || e.Or? }

  /** The terms with no subterm that still build their value. */
  predicate Draws(e: Expr) { e.SelfAddr? || e.SelfRecord? || e.FreshId? || e.FreshKey? }

  function ReadOf(e: Expr, v: Value): Outcome<Value>
    requires Reads(e)
  {
    match e
    case ResourceOf(_) => var (resource, _) :- AsBucket(v); Ok(VAddress(resource))
    case IdsOf(_) => var (_, content) :- AsBucket(v); EdgeIds(content)
    case Len(_) => var elements :- AsList(v); Ok(Count(elements))
    case Not(_) => var flag :- AsBool(v); Ok(VBool(!flag))
  }

  function PartOf(e: Expr, v: Value): Outcome<Value>
    requires Projects(e)
  {
    match e
    case Field(_, index) => var fields :- AsTuple(v); FieldAt(fields, index)
    case Only(_) => var elements :- AsList(v); Sole(elements)
  }

  function GatherOf(e: Expr, values: seq<Value>): Value
    requires Gathers(e)
  {
    if e.ListOf? then VList(values) else VTuple(values)
  }

  function ComputeOf(e: Expr, left: Value, right: Value): Outcome<Value>
    requires Computes(e)
  {
    if e.Add? then Sum(left, right) else LessThan(left, right)
  }

  /** A part copied out of its container, the copy paid for. */
  function CopiedOut(part: Outcome<Value>): Priced<Value> {
    Priced(part, if part.Ok? then Walked(part.value) else 0)
  }

  function ReadFrom(e: Expr, operand: Priced<Answer>): Priced<Value>
    requires Reads(e)
  {
    var (held, spent) :- operand;
    Priced(ReadOf(e, held.value), spent)
  }

  function PartFrom(e: Expr, operand: Priced<Answer>): Priced<Value>
    requires Projects(e)
  {
    var (held, spent) :- operand;
    CopiedOut(PartOf(e, held.value)).Plus(spent)
  }

  function GatherFrom(e: Expr, values: Priced<seq<Value>>): Priced<Value>
    requires Gathers(e)
  {
    var (kept, spent) :- values;
    Priced(Ok(GatherOf(e, kept)), spent)
  }

  /** The probe is read only once the table is a list, and then the table is scanned for it. */
  function Probed(pairs: seq<Value>, probe: Priced<Answer>): Priced<Option<Value>> {
    var (key, spent) :- probe;
    Find(pairs, key.value).Plus(spent)
  }

  function Scanned(table: Priced<Answer>, probe: Priced<Answer>): Priced<Option<Value>> {
    var (pairs, spent) :- Listed(table);
    Probed(pairs, probe).Plus(spent)
  }

  /** Membership answers whether the scan hit; a lookup copies the hit out. */
  function HitOf(e: Expr, hit: Option<Value>): Priced<Value>
    requires Scans(e)
  {
    if e.Contains? then Priced(Ok(VBool(hit.Some?)), 0)
    else CopiedOut(if hit.Some? then Ok(hit.value) else Err(LookupMiss))
  }

  function ScanFrom(e: Expr, table: Priced<Answer>, probe: Priced<Answer>): Priced<Value>
    requires Scans(e)
  {
    var (hit, spent) :- Scanned(table, probe);
    HitOf(e, hit).Plus(spent)
  }

  function IssuedFrom(env: Inputs, kind: ResourceKind, material: Priced<seq<Bytes>>, grants: GrantsExpr)
    : Priced<Value>
  {
    var (parts, spent) :- material;
    Priced(IssuedAddress(env, kind, parts, grants), spent)
  }

  function KeyUnder(env: Inputs, owner: Address, slot: Priced<Word16>, material: Priced<seq<Bytes>>): Priced<Value> {
    var (under, spent) :- slot;
    var (parts, spent) :- material.Plus(spent);
    Priced(Ok(VKey(env.seam.ChildKeyOf(owner, under, parts))), spent)
  }

  function ChildFrom(env: Inputs, owner: Priced<Answer>, slot: Priced<Word16>, material: Priced<seq<Bytes>>)
    : Priced<Value>
  {
    var (address, spent) :- Owner(owner);
    KeyUnder(env, address, slot, material).Plus(spent)
  }

  function OrderFrom(env: Inputs, owner: Priced<Answer>, slot: Word16, material: Priced<seq<Bytes>>): Priced<Value> {
    var (address, spent) :- Owner(owner);
    var (parts, spent) :- material.Plus(spent);
    Priced(Ok(VU128(env.seam.OrderOf(address, slot, parts))), spent)
  }

  function ReachedFrom(named: Priced<Answer>, point: bool): Priced<Word16> {
    var (word, spent) :- Word(named);
    Priced(ReachableSlot(word, point), spent)
  }

  function PackFrom(high: Priced<Answer>, low: Priced<Answer>): Priced<Value> {
    var (hi, spent) :- Word(high);
    var (lo, spent) :- Word(low).Plus(spent);
    Priced(Ok(VU128(PackWords(hi, lo))), spent)
  }

  function EdgeOf(resource: Address, ids: Priced<Answer>): Priced<Value> {
    var (carried, spent) :- Priced(AsResource(resource), 0);
    var (elements, spent) :- Listed(ids).Plus(spent);
    var (named, spent) :- Priced(IdsAfter(elements, []), spent);
    Priced(Ok(VBucket(carried, InstanceEdge(named))), spent)
  }

  function EdgeFrom(resource: Priced<Answer>, ids: Priced<Answer>): Priced<Value> {
    var (address, spent) :- Owner(resource);
    EdgeOf(address, ids).Plus(spent)
  }

  function FlagFrom(operand: Priced<Answer>): Priced<Value> {
    var (flag, spent) :- Flag(operand);
    Priced(Ok(VBool(flag)), spent)
  }

  /** A left operand equal to `short` is the answer, and the right one costs nothing. */
  function ShortFrom(left: Priced<Answer>, right: Priced<Answer>, short: bool): Priced<Value> {
    var (flag, spent) :- Flag(left);
    if flag == short then Priced(Ok(VBool(short)), spent)
    else FlagFrom(right).Plus(spent)
  }

  function ComputeFrom(e: Expr, left: Priced<Answer>, right: Priced<Answer>): Priced<Value>
    requires Computes(e)
  {
    var (pair, spent) :- Operands(left, right);
    Priced(ComputeOf(e, pair.0, pair.1), spent)
  }

  /** Equality walks both operands, and the walk is paid for before it is judged. */
  function EqualFrom(left: Priced<Answer>, right: Priced<Answer>): Priced<Value> {
    var (pair, spent) :- Operands(left, right);
    Priced(Equals(pair.0, pair.1), spent + Walked(pair.0) + Walked(pair.1))
  }

  /** A selection forwards the arm it took, and the other arm costs nothing. */
  function SelectFrom(cond: Priced<Answer>, then_: Priced<Answer>, otherwise: Priced<Answer>): Priced<Answer> {
    var (taken, spent) :- Flag(cond);
    (if taken then then_ else otherwise).Plus(spent)
  }

  /** A value handed out in place. */
  function Handed(found: Outcome<Value>): Priced<Answer> {
    if found.Err? then Priced(Err(found.error), 0) else Priced(Ok(Answer(found.value, true)), 0)
  }

  /** A built value, its building walk paid for. */
  function Owned(built: Priced<Value>): Priced<Answer> {
    var (value, spent) :- built;
    Priced(Ok(Answer(value, false)), spent + Walked(value))
  }

  /** A value the caller keeps, priced for the copy where it was borrowed. */
  function Forced(held: Answer): Priced<Value> {
    Priced(Ok(held.value), if held.borrowed then Walked(held.value) else 0)
  }

  /** An operand encoded, its encoding walk paid for. */
  function Encoded(env: Inputs, operand: Priced<Answer>): Priced<Bytes> {
    var (held, spent) :- operand;
    Priced(Ok(env.seam.encode(held.value)), spent + Walked(held.value))
  }

  /** An operand kept, its copy paid for. */
  function Kept(operand: Priced<Answer>): Priced<Value> {
    var (held, spent) :- operand;
    Forced(held).Plus(spent)
  }

  /** One more verdict in front of the verdicts that follow it. */
  function Then<T>(first: Priced<T>, rest: Priced<seq<T>>): Priced<seq<T>> {
    var (head, spent) :- first;
    var (tail, spent) :- rest.Plus(spent);
    Priced(Ok([head] + tail), spent)
  }

  // --------------------------------------------------------------- expressions

  /** How many hashes a term runs. */
  function Derivations(e: Expr): nat {
    if e.SelfResource? then 2
    else if e.ChildKey? || e.OrderKey? || e.FreshId? || e.FreshKey? then 1
    else 0
  }

  /** What a term pays before anything is read. */
  function Toll(e: Expr): (units: nat)
    ensures units > 0
  {
    1 + Derivations(e) * WORK_PER_DERIVATION
  }

  predicate Hands(e: Expr) { e.Literal? || e.Arg? || e.Config? || e.Binding? }

  predicate Builds(e: Expr) { !Hands(e) && !e.If? }

  /** The value a handing term names, read in place. */
  function HandedOut(e: Expr, env: Inputs, bindings: seq<Value>): Outcome<Value>
    requires Hands(e)
  {
    if e.Literal? then Ok(e.value)
    else if e.Arg? then ArgAt(env, e.index)
    else if e.Config? then ConfigAt(env, e.index)
    else BindingAt(bindings, e.index)
  }

  function Drawn(e: Expr, env: Inputs): Outcome<Value>
    requires Draws(e)
  {
    if e.SelfAddr? then Ok(VAddress(env.self))
    else if e.SelfRecord? then if env.leaf.Some? then Ok(VBytes(env.leaf.value)) else Err(RecordMalformed)
    else if e.FreshId? then Ok(VU64(env.seam.FreshIdOf(env.identity, env.node, e.draw)))
    else Ok(VKey(SubstateKey(env.self, env.seam.FreshDigest(env.identity, env.node, e.draw))))
  }

  /** Evaluate one term: refused past the nesting bound, and otherwise its toll and its answer. */
  function Eval(e: Expr, env: Inputs, bindings: seq<Value>, depth: nat): Priced<Answer>
    decreases e, 2
  {
    if depth > MAX_EXPR_DEPTH then Priced(Err(ExpressionTooDeep), 0)
    else Answered(e, env, bindings, depth + 1).Plus(Toll(e))
  }

  /** The terms that hand a value out, the selection that forwards one, and the
      rest, which build one. */
  function Answered(e: Expr, env: Inputs, bindings: seq<Value>, depth: nat): Priced<Answer>
    decreases e, 1
  {
    if Hands(e) then Handed(HandedOut(e, env, bindings))
    else if e.If? then
      SelectFrom(Eval(e.cond, env, bindings, depth),
                 Eval(e.then_, env, bindings, depth),
                 Eval(e.otherwise, env, bindings, depth))
    else Owned(Build(e, env, bindings, depth))
  }

  /** What a building term answers, its subterms evaluated at `depth`. */
  function Build(e: Expr, env: Inputs, bindings: seq<Value>, depth: nat): Priced<Value>
    requires Builds(e)
    decreases e, 0
  {
    if Draws(e) then Priced(Drawn(e, env), 0)
    else if Reads(e) then ReadFrom(e, Eval(e.inner, env, bindings, depth))
    else if Projects(e) then PartFrom(e, Eval(e.inner, env, bindings, depth))
    else if Gathers(e) then GatherFrom(e, EvalAll(e.elements, env, bindings, depth))
    else if Scans(e) then ScanFrom(e, Eval(e.table, env, bindings, depth), Eval(e.probe, env, bindings, depth))
    else if Computes(e) then ComputeFrom(e, Eval(e.left, env, bindings, depth), Eval(e.right, env, bindings, depth))
    else if Decides(e) then ShortFrom(Eval(e.left, env, bindings, depth), Eval(e.right, env, bindings, depth), e.Or?)
    else if e.Eq? then EqualFrom(Eval(e.left, env, bindings, depth), Eval(e.right, env, bindings, depth))
    else if e.Pack? then PackFrom(Eval(e.high, env, bindings, depth), Eval(e.low, env, bindings, depth))
    else if e.NfBucket? then EdgeFrom(Eval(e.resource, env, bindings, depth), Eval(e.ids, env, bindings, depth))
    else if e.SelfResource? then IssuedFrom(env, e.kind, EvalMaterial(e.material, env, bindings, depth), e.grants)
    else if e.ChildKey? then
      ChildFrom(env, Eval(e.owner, env, bindings, depth), EvalSlot(e.slot, true, env, bindings, depth),
                EvalMaterial(e.material, env, bindings, depth))
    else OrderFrom(env, Eval(e.owner, env, bindings, depth), e.fixed, EvalMaterial(e.material, env, bindings, depth))
  }

  /** The slot a key is derived under, held to the value band where an argument names it. */
  function EvalSlot(slot: SlotRef, point: bool, env: Inputs, bindings: seq<Value>, depth: nat): Priced<Word16>
    decreases slot, 0
  {
    if slot.Fixed? then Priced(Ok(slot.slot), 0)
    else ReachedFrom(Eval(slot.named, env, bindings, depth), point)
  }

  /** Material evaluated to its canonical encodings, each encoding walk paid for. */
  function EvalMaterial(material: seq<Expr>, env: Inputs, bindings: seq<Value>, depth: nat): Priced<seq<Bytes>>
    decreases material, 0
  {
    if material == [] then Priced(Ok([]), 0)
    else Then(Encoded(env, Eval(material[0], env, bindings, depth)), EvalMaterial(material[1..], env, bindings, depth))
  }

  /** Every element of a sequence expression, each kept by the sequence built. */
  function EvalAll(elements: seq<Expr>, env: Inputs, bindings: seq<Value>, depth: nat): Priced<seq<Value>>
    decreases elements, 0
  {
    if elements == [] then Priced(Ok([]), 0)
    else Then(Kept(Eval(elements[0], env, bindings, depth)), EvalAll(elements[1..], env, bindings, depth))
  }
}
