/** An intent's identity: what its hash covers, at every depth, and what it leaves out. */
module Identity {
  import opened Vocabulary
  import opened Syntax

  // ------------------------------------------------------------------- intents

  datatype Constraint = AtLeast(amount: Word128) | AtMost(amount: Word128) | Exactly(content: Bytes)

  datatype ValueRef =
    | EdgeFrom(node: Word32, output: Word32)
    | GiveFrom(member: Word32, give: Word32)
    | FromSocket(socket: Word32)

  datatype ClaimRef = AccountClaim(account: Address) | NodeClaim(node: Word32) | SocketClaim(socket: Word32)

  datatype GraphArg = LiteralArg(value: Value) | ValueArg(source: ValueRef, constraints: seq<Constraint>)

  datatype GraphNode = GraphNode(target: CallTarget, method_: Bytes, args: seq<GraphArg>, evidence: set<ClaimRef>)

  datatype Socket = ValueSocket(resource: ResourceAddr, constraints: seq<Constraint>) | AuthoritySocket(claim: Claim)

  datatype Binding = BoundValue(source: ValueRef) | BoundAuthority(claim: ClaimRef)

  datatype Header = Header(network: Word32, validityStart: Word64, validityEnd: Word64, discriminator: Word64)

  /** A list short enough to travel: its length fits the count that leads it. */
  type Wire<+T> = s: seq<T> | |s| <= MAX_WORD32

  datatype Intent = Intent(
    header: Header,
    accounts: seq<Address>,
    attestedBy: seq<Address>,
    graph: seq<GraphNode>,
    sockets: Wire<Socket>,
    gives: Wire<ValueRef>,
    members: Wire<Member>)

  datatype SignedIntent = SignedIntent(intent: Intent, signatures: seq<Bytes>)

  datatype Member = Member(signed: SignedIntent, wiring: seq<Binding>)

  // ------------------------------------------------------------------ the hash

  /** The canonical encodings a preimage is made of. */
  datatype Codec = Codec(
    header: Header -> Bytes,
    addresses: seq<Address> -> Bytes,
    arg: GraphArg -> Bytes,
    evidence: set<ClaimRef> -> Bytes,
    socket: Socket -> Bytes,
    give: ValueRef -> Bytes,
    wiring: seq<Binding> -> Bytes)

  ghost predicate Injective<T(!new)>(encode: T -> Bytes) {
    forall a, b :: encode(a) == encode(b) ==> a == b
  }

  /** Canonical encodings tell two values apart. */
  ghost predicate Canonical(codec: Codec) {
    && Injective(codec.header) && Injective(codec.addresses) && Injective(codec.arg) && Injective(codec.evidence)
    && Injective(codec.socket) && Injective(codec.give) && Injective(codec.wiring)
  }

  /** Distinct preimages, or one preimage under distinct domains, hash apart. */
  ghost predicate CollisionFree(hash: (Domain, seq<Bytes>) -> Bytes) {
    forall d: Domain, e: Domain, p: seq<Bytes>, q: seq<Bytes> :: hash(d, p) == hash(e, q) ==> d == e && p == q
  }

  /** How identities are taken. */
  datatype Identifier = Identifier(hash: (Domain, seq<Bytes>) -> Bytes, codec: Codec)

  ghost predicate Sound(id: Identifier) { CollisionFree(id.hash) && Canonical(id.codec) }

  function Each<T>(encode: T -> Bytes, items: seq<T>): (b: seq<Bytes>)
    ensures |b| == |items|
  {
    seq(|items|, i requires 0 <= i < |items| => encode(items[i]))
  }

  function NodeParts(id: Identifier, node: GraphNode): seq<Bytes> {
    [node.target.ToBytes(), node.method_] + Each(id.codec.arg, node.args) + [id.codec.evidence(node.evidence)]
  }

  function NodeHash(id: Identifier, node: GraphNode): Bytes { id.hash(GraphNodeDomain, NodeParts(id, node)) }

  function GraphHash(id: Identifier, graph: seq<GraphNode>): Bytes {
    id.hash(GraphDomain, seq(|graph|, i requires 0 <= i < |graph| => NodeHash(id, graph[i])))
  }

  function Count(n: nat): Bytes
    requires n <= MAX_WORD32
  {
    Le32(n)
  }

  /** Each member's hash, then its wiring. */
  function MemberParts(id: Identifier, members: seq<Member>, hashes: seq<Bytes>): (parts: seq<Bytes>)
    requires |hashes| == |members|
    ensures |parts| == 2 * |members|
  {
    if members == [] then []
    else [hashes[0], id.codec.wiring(members[0].wiring)] + MemberParts(id, members[1..], hashes[1..])
  }

  function Heads(id: Identifier, intent: Intent): (parts: seq<Bytes>)
    ensures |parts| == 4
  {
    [id.codec.header(intent.header), id.codec.addresses(intent.accounts), id.codec.addresses(intent.attestedBy),
     GraphHash(id, intent.graph)]
  }

  /** A section led by its count, and what follows it. */
  function Led(n: nat, section: seq<Bytes>, rest: seq<Bytes>): seq<Bytes>
    requires n <= MAX_WORD32
  {
    [Count(n)] + section + rest
  }

  function Sections(id: Identifier, intent: Intent, hashes: seq<Bytes>): seq<Bytes>
    requires |hashes| == |intent.members|
  {
    Led(|intent.sockets|, Each(id.codec.socket, intent.sockets),
        Led(|intent.gives|, Each(id.codec.give, intent.gives),
            Led(|intent.members|, MemberParts(id, intent.members, hashes), [])))
  }

  /** The preimage: every section led by its count, every part its own encoding. */
  function IntentParts(id: Identifier, intent: Intent, hashes: seq<Bytes>): seq<Bytes>
    requires |hashes| == |intent.members|
  {
    Heads(id, intent) + Sections(id, intent, hashes)
  }

  function HashOver(id: Identifier, intent: Intent, hashes: seq<Bytes>): Bytes
    requires |hashes| == |intent.members|
  {
    id.hash(IntentDomain, IntentParts(id, intent, hashes))
  }

  function Hash(id: Identifier, intent: Intent): Bytes
    decreases intent, 0
  {
    HashOver(id, intent, MemberHashes(id, intent.members))
  }

  function MemberHashes(id: Identifier, members: seq<Member>): (hashes: seq<Bytes>)
    ensures |hashes| == |members|
    decreases members, 0
  {
    if members == [] then [] else [MemberHash(id, members[0])] + MemberHashes(id, members[1..])
  }

  function MemberHash(id: Identifier, member: Member): Bytes
    decreases member, 0
  {
    SignedHash(id, member.signed)
  }

  function SignedHash(id: Identifier, signed: SignedIntent): Bytes
    decreases signed, 0
  {
    Hash(id, signed.intent)
  }

  // ----------------------------------------------------- what a signer stands behind

  /** The intent without its members' signatures, at any depth. */
  function Unsigned(intent: Intent): Intent
    decreases intent, 0
  {
    intent.(members := UnsignedMembers(intent.members))
  }

  function UnsignedMembers(members: Wire<Member>): (bare: Wire<Member>)
    ensures |bare| == |members|
    decreases members, 0
  {
    if members == [] then [] else [UnsignedMember(members[0])] + UnsignedMembers(members[1..])
  }

  function UnsignedMember(member: Member): Member
    decreases member, 0
  {
    Member(SignedIntent(UnsignedOf(member.signed), []), member.wiring)
  }

  function UnsignedOf(signed: SignedIntent): Intent
    decreases signed, 0
  {
    Unsigned(signed.intent)
  }

  // ----------------------------------------------------- each preimage reads one way

  function Quad(a: int, b: int, c: int, d: int): int { a + 0x100 * (b + 0x100 * (c + 0x100 * d)) }

  lemma {:induction false} CountsRead(n: Word32)
    ensures |Count(n)| == 4 && n == Quad(Count(n)[0], Count(n)[1], Count(n)[2], Count(n)[3])
  {
    var q := n / 0x100;
    var r := q / 0x100;
    assert n / 0x1_0000 == r;
    assert n / 0x100_0000 == r / 0x100;
    assert n == n % 0x100 + 0x100 * q && q == q % 0x100 + 0x100 * r && r == r % 0x100 + 0x100 * (r / 0x100);
  }

  lemma {:induction false} CountsTellApart(m: nat, n: nat)
    requires m <= MAX_WORD32 && n <= MAX_WORD32 && Count(m) == Count(n)
    ensures m == n
  {
    hide Count;
    CountsRead(m);
    CountsRead(n);
  }

  lemma {:induction false} EachTellsApart<T(!new)>(encode: T -> Bytes, a: seq<T>, b: seq<T>)
    requires Injective(encode) && Each(encode, a) == Each(encode, b)
    ensures a == b
  {
    assert |a| == |Each(encode, a)| == |b|;
    forall i | 0 <= i < |a| ensures a[i] == b[i] {
      assert Each(encode, a)[i] == Each(encode, b)[i];
    }
  }

  /** A section led by its count ends where the count says, whatever its parts are. */
  lemma {:induction false} SectionsTellApart(
      m: nat, a: seq<Bytes>, rest: seq<Bytes>, n: nat, b: seq<Bytes>, other: seq<Bytes>)
    requires m <= MAX_WORD32 && n <= MAX_WORD32
    requires |a| == |b| || m != n
    requires Led(m, a, rest) == Led(n, b, other)
    ensures m == n && a == b && rest == other
  {
    var whole, twin := Led(m, a, rest), Led(n, b, other);
    assert whole[0] == Count(m) && twin[0] == Count(n);
    CountsTellApart(m, n);
    assert a == whole[1..1 + |a|] && b == twin[1..1 + |b|];
    assert rest == whole[1 + |a|..] && other == twin[1 + |b|..];
  }

  lemma {:induction false} NodesTellApart(id: Identifier, a: GraphNode, b: GraphNode)
    requires Sound(id) && NodeHash(id, a) == NodeHash(id, b)
    ensures a == b
  {
    var p, q := NodeParts(id, a), NodeParts(id, b);
    assert p == q;
    assert p[0] == a.target.ToBytes() && q[0] == b.target.ToBytes() && p[1] == a.method_ && q[1] == b.method_;
    AddressBytesInjective(a.target, b.target);
    assert |a.args| == |p| - 3 == |b.args|;
    assert p[2..|p| - 1] == Each(id.codec.arg, a.args) && q[2..|q| - 1] == Each(id.codec.arg, b.args);
    EachTellsApart(id.codec.arg, a.args, b.args);
    assert p[|p| - 1] == id.codec.evidence(a.evidence) && q[|q| - 1] == id.codec.evidence(b.evidence);
  }

  /** A graph's hash tells it from every other graph. */
  lemma {:induction false} GraphsTellApart(id: Identifier, a: seq<GraphNode>, b: seq<GraphNode>)
    requires Sound(id) && GraphHash(id, a) == GraphHash(id, b)
    ensures a == b
  {
    hide NodeHash;
    var p := seq(|a|, i requires 0 <= i < |a| => NodeHash(id, a[i]));
    var q := seq(|b|, i requires 0 <= i < |b| => NodeHash(id, b[i]));
    assert p == q;
    assert |a| == |p| == |q| == |b|;
    forall i | 0 <= i < |a| ensures a[i] == b[i] {
      assert p[i] == q[i];
      NodesTellApart(id, a[i], b[i]);
    }
  }

  lemma {:induction false} MembersTellApart(
      id: Identifier, a: seq<Member>, x: seq<Bytes>, b: seq<Member>, y: seq<Bytes>)
    requires Sound(id) && |a| == |b| && |x| == |a| && |y| == |b|
    requires MemberParts(id, a, x) == MemberParts(id, b, y)
    ensures x == y
    ensures forall i :: 0 <= i < |a| ==> a[i].wiring == b[i].wiring
    decreases |a|
  {
    if a != [] {
      var p, q := MemberParts(id, a, x), MemberParts(id, b, y);
      assert p[0] == x[0] && q[0] == y[0] && p[1] == id.codec.wiring(a[0].wiring)
             && q[1] == id.codec.wiring(b[0].wiring);
      assert p[2..] == MemberParts(id, a[1..], x[1..]) && q[2..] == MemberParts(id, b[1..], y[1..]);
      MembersTellApart(id, a[1..], x[1..], b[1..], y[1..]);
      forall i | 0 <= i < |a| ensures x[i] == y[i] && a[i].wiring == b[i].wiring {
        if i > 0 {
          assert x[1..][i - 1] == y[1..][i - 1] && a[1..][i - 1].wiring == b[1..][i - 1].wiring;
        }
      }
    }
  }

  /** A preimage tells apart everything in an intent but its members, which it tells by their hashes. */
  lemma {:induction false} PreimagesTellApart(id: Identifier, a: Intent, x: seq<Bytes>, b: Intent, y: seq<Bytes>)
    requires Sound(id) && |x| == |a.members| && |y| == |b.members|
    requires IntentParts(id, a, x) == IntentParts(id, b, y)
    ensures a == b.(members := a.members) && x == y && |a.members| == |b.members|
    ensures forall i :: 0 <= i < |a.members| ==> a.members[i].wiring == b.members[i].wiring
  {
    hide Heads, Led;
    var p, q := IntentParts(id, a, x), IntentParts(id, b, y);
    assert p[..4] == Heads(id, a) && q[..4] == Heads(id, b);
    assert p[4..] == Sections(id, a, x) && q[4..] == Sections(id, b, y);
    HeadsTellApart(id, a, b);
    SectionsAgree(id, a, x, b, y);
  }

  lemma {:induction false} HeadsTellApart(id: Identifier, a: Intent, b: Intent)
    requires Sound(id) && Heads(id, a) == Heads(id, b)
    ensures a.header == b.header && a.accounts == b.accounts && a.attestedBy == b.attestedBy && a.graph == b.graph
  {
    hide GraphHash;
    var p, q := Heads(id, a), Heads(id, b);
    assert p[0] == q[0] && p[1] == q[1] && p[2] == q[2] && p[3] == q[3];
    GraphsTellApart(id, a.graph, b.graph);
  }

  lemma {:induction false} SectionsAgree(id: Identifier, a: Intent, x: seq<Bytes>, b: Intent, y: seq<Bytes>)
    requires Sound(id) && |x| == |a.members| && |y| == |b.members|
    requires Sections(id, a, x) == Sections(id, b, y)
    ensures a.sockets == b.sockets && a.gives == b.gives && x == y && |a.members| == |b.members|
    ensures forall i :: 0 <= i < |a.members| ==> a.members[i].wiring == b.members[i].wiring
  {
    hide Led, Each, MemberParts;
    var sa, sb := Each(id.codec.socket, a.sockets), Each(id.codec.socket, b.sockets);
    var ga, gb := Each(id.codec.give, a.gives), Each(id.codec.give, b.gives);
    var ma, mb := MemberParts(id, a.members, x), MemberParts(id, b.members, y);
    var ra, rb := Led(|a.members|, ma, []), Led(|b.members|, mb, []);
    SectionsTellApart(|a.sockets|, sa, Led(|a.gives|, ga, ra), |b.sockets|, sb, Led(|b.gives|, gb, rb));
    SectionsTellApart(|a.gives|, ga, ra, |b.gives|, gb, rb);
    SectionsTellApart(|a.members|, ma, [], |b.members|, mb, []);
    EachTellsApart(id.codec.socket, a.sockets, b.sockets);
    EachTellsApart(id.codec.give, a.gives, b.gives);
    MembersTellApart(id, a.members, x, b.members, y);
  }

  // ------------------------------------------------------- identity is what is signed

  /** Equal hashes are equal declarations at every depth. */
  lemma {:induction false} HashTellsApart(id: Identifier, a: Intent, b: Intent)
    requires Sound(id) && Hash(id, a) == Hash(id, b)
    ensures Unsigned(a) == Unsigned(b)
    decreases a, 0
  {
    hide IntentParts;
    var x, y := MemberHashes(id, a.members), MemberHashes(id, b.members);
    assert IntentParts(id, a, x) == IntentParts(id, b, y);
    PreimagesTellApart(id, a, x, b, y);
    MembersHashTellApart(id, a.members, b.members);
  }

  lemma {:induction false} MembersHashTellApart(id: Identifier, a: Wire<Member>, b: Wire<Member>)
    requires Sound(id) && |a| == |b| && MemberHashes(id, a) == MemberHashes(id, b)
    requires forall i :: 0 <= i < |a| ==> a[i].wiring == b[i].wiring
    ensures UnsignedMembers(a) == UnsignedMembers(b)
    decreases a, 0
  {
    hide Hash;
    if a != [] {
      var x, y := MemberHashes(id, a), MemberHashes(id, b);
      assert x[0] == MemberHash(id, a[0]) && y[0] == MemberHash(id, b[0]);
      MemberHashTellsApart(id, a[0], b[0]);
      assert x[1..] == MemberHashes(id, a[1..]) && y[1..] == MemberHashes(id, b[1..]);
      MembersHashTellApart(id, a[1..], b[1..]);
    }
  }

  lemma {:induction false} MemberHashTellsApart(id: Identifier, a: Member, b: Member)
    requires Sound(id) && MemberHash(id, a) == MemberHash(id, b) && a.wiring == b.wiring
    ensures UnsignedMember(a) == UnsignedMember(b)
    decreases a, 0
  {
    SignedHashTellsApart(id, a.signed, b.signed);
  }

  lemma {:induction false} SignedHashTellsApart(id: Identifier, a: SignedIntent, b: SignedIntent)
    requires Sound(id) && SignedHash(id, a) == SignedHash(id, b)
    ensures UnsignedOf(a) == UnsignedOf(b)
    decreases a, 0
  {
    HashTellsApart(id, a.intent, b.intent);
  }

  /** Signatures are transport: an intent's hash is its hash without them. */
  lemma {:induction false} HashIgnoresSignatures(id: Identifier, intent: Intent)
    ensures Hash(id, Unsigned(intent)) == Hash(id, intent)
    decreases intent, 0
  {
    var bare := UnsignedMembers(intent.members);
    MemberHashesIgnoreSignatures(id, intent.members);
    var hashes := MemberHashes(id, intent.members);
    assert MemberHashes(id, bare) == hashes;
    MemberPartsIgnoreSignatures(id, intent.members, bare, hashes);
  }

  lemma {:induction false} MemberPartsIgnoreSignatures(
      id: Identifier, a: seq<Member>, b: seq<Member>, hashes: seq<Bytes>)
    requires |a| == |b| == |hashes| && forall i :: 0 <= i < |a| ==> a[i].wiring == b[i].wiring
    ensures MemberParts(id, a, hashes) == MemberParts(id, b, hashes)
    decreases |a|
  {
    if a != [] {
      MemberPartsIgnoreSignatures(id, a[1..], b[1..], hashes[1..]);
    }
  }

  lemma {:induction false} MemberHashesIgnoreSignatures(id: Identifier, members: Wire<Member>)
    ensures MemberHashes(id, UnsignedMembers(members)) == MemberHashes(id, members)
    ensures forall i :: 0 <= i < |members| ==> UnsignedMembers(members)[i].wiring == members[i].wiring
    decreases members, 0
  {
    hide Hash;
    if members != [] {
      var bare := UnsignedMembers(members);
      assert bare[0] == UnsignedMember(members[0]) && bare[1..] == UnsignedMembers(members[1..]);
      MemberHashIgnoresSignatures(id, members[0]);
      MemberHashesIgnoreSignatures(id, members[1..]);
      forall i | 0 <= i < |members| ensures bare[i].wiring == members[i].wiring {
        assert i > 0 ==> bare[i] == bare[1..][i - 1];
      }
    }
  }

  lemma {:induction false} MemberHashIgnoresSignatures(id: Identifier, member: Member)
    ensures MemberHash(id, UnsignedMember(member)) == MemberHash(id, member)
    decreases member, 0
  {
    SignedHashIgnoresSignatures(id, member.signed);
  }

  lemma {:induction false} SignedHashIgnoresSignatures(id: Identifier, signed: SignedIntent)
    ensures Hash(id, UnsignedOf(signed)) == SignedHash(id, signed)
    decreases signed, 0
  {
    HashIgnoresSignatures(id, signed.intent);
  }

  /** Two intents share an identity exactly when they agree on everything, at every depth, but
      the members' signatures. */
  lemma {:induction false} IdentityIsTheDeclaration(id: Identifier, a: Intent, b: Intent)
    requires Sound(id)
    ensures Hash(id, a) == Hash(id, b) <==> Unsigned(a) == Unsigned(b)
  {
    hide Hash, Unsigned;
    HashIgnoresSignatures(id, a);
    HashIgnoresSignatures(id, b);
    if Hash(id, a) == Hash(id, b) {
      HashTellsApart(id, a, b);
    }
  }

  // --------------------------------------------------------------- as they are computed

  /** A graph's hash, node by node: each node's parts pushed, then the node hashes hashed. */
  method HashGraph(id: Identifier, graph: seq<GraphNode>) returns (hash: Bytes)
    ensures hash == GraphHash(id, graph)
  {
    var hashes: seq<Bytes> := [];
    for i := 0 to |graph|
      invariant hashes == seq(i, j requires 0 <= j < i => NodeHash(id, graph[j]))
    {
      var node := graph[i];
      var parts := [node.target.ToBytes()];
      parts := parts + [node.method_];
      for k := 0 to |node.args|
        invariant parts == [node.target.ToBytes(), node.method_] + Each(id.codec.arg, node.args[..k])
      {
        assert Each(id.codec.arg, node.args[..k + 1]) ==
               Each(id.codec.arg, node.args[..k]) + [id.codec.arg(node.args[k])];
        parts := parts + [id.codec.arg(node.args[k])];
      }
      assert node.args[..|node.args|] == node.args;
      parts := parts + [id.codec.evidence(node.evidence)];
      hashes := hashes + [id.hash(GraphNodeDomain, parts)];
    }
    hash := id.hash(GraphDomain, hashes);
  }

  method PushEach<T>(parts: seq<Bytes>, encode: T -> Bytes, items: Wire<T>) returns (pushed: seq<Bytes>)
    ensures pushed == parts + ([Count(|items|)] + Each(encode, items))
  {
    pushed := parts + [Count(|items|)];
    for i := 0 to |items|
      invariant pushed == parts + [Count(|items|)] + Each(encode, items[..i])
    {
      assert Each(encode, items[..i + 1]) == Each(encode, items[..i]) + [encode(items[i])];
      pushed := pushed + [encode(items[i])];
    }
    assert items[..|items|] == items;
  }

  lemma {:induction false} MemberPartsNext(id: Identifier, members: seq<Member>, hashes: seq<Bytes>, i: nat)
    requires i < |members| == |hashes|
    ensures MemberParts(id, members[..i + 1], hashes[..i + 1]) ==
            MemberParts(id, members[..i], hashes[..i]) + [hashes[i], id.codec.wiring(members[i].wiring)]
    decreases i
  {
    assert members[..i + 1][1..] == members[1..][..i] && hashes[..i + 1][1..] == hashes[1..][..i];
    if i > 0 {
      assert members[..i][1..] == members[1..][..i - 1] && hashes[..i][1..] == hashes[1..][..i - 1];
      MemberPartsNext(id, members[1..], hashes[1..], i - 1);
    }
  }

  method PushMembers(id: Identifier, parts: seq<Bytes>, members: Wire<Member>, hashes: seq<Bytes>)
    returns (pushed: seq<Bytes>)
    requires |hashes| == |members|
    ensures pushed == parts + ([Count(|members|)] + MemberParts(id, members, hashes))
  {
    pushed := parts + [Count(|members|)];
    for i := 0 to |hashes|
      invariant pushed == parts + [Count(|members|)] + MemberParts(id, members[..i], hashes[..i])
    {
      MemberPartsNext(id, members, hashes, i);
      pushed := pushed + [hashes[i]];
      pushed := pushed + [id.codec.wiring(members[i].wiring)];
    }
    assert members[..|hashes|] == members && hashes[..|hashes|] == hashes;
  }

  lemma {:induction false} Assembled<T>(h: seq<T>, c: seq<T>, s: seq<T>, d: seq<T>, g: seq<T>, e: seq<T>, m: seq<T>)
    ensures h + (c + s) + (d + g) + (e + m) == h + (c + s + (d + g + (e + m + [])))
  {}

  /** An intent's hash with its members' supplied, one a member, in order. */
  method HashIntentOver(id: Identifier, intent: Intent, hashes: seq<Bytes>) returns (hash: Bytes)
    requires |hashes| == |intent.members|
    ensures hash == HashOver(id, intent, hashes)
  {
    hide GraphHash, MemberParts, Each, Count;
    var graph := HashGraph(id, intent.graph);
    var parts := [id.codec.header(intent.header)];
    parts := parts + [id.codec.addresses(intent.accounts)];
    parts := parts + [id.codec.addresses(intent.attestedBy)];
    parts := parts + [graph];
    assert parts == Heads(id, intent);
    parts := PushEach(parts, id.codec.socket, intent.sockets);
    parts := PushEach(parts, id.codec.give, intent.gives);
    parts := PushMembers(id, parts, intent.members, hashes);
    Assembled(Heads(id, intent), [Count(|intent.sockets|)], Each(id.codec.socket, intent.sockets),
              [Count(|intent.gives|)], Each(id.codec.give, intent.gives),
              [Count(|intent.members|)], MemberParts(id, intent.members, hashes));
    hash := id.hash(IntentDomain, parts);
  }

  lemma {:induction false} MemberHashesNext(id: Identifier, members: seq<Member>, i: nat)
    requires i < |members|
    ensures MemberHashes(id, members[..i + 1]) == MemberHashes(id, members[..i]) + [SignedHash(id, members[i].signed)]
    decreases i
  {
    assert members[..i + 1][1..] == members[1..][..i];
    if i > 0 {
      assert members[..i][1..] == members[1..][..i - 1];
      MemberHashesNext(id, members[1..], i - 1);
    }
  }

  /** The whole tree hashed from its leaves up. */
  method HashIntent(id: Identifier, intent: Intent) returns (hash: Bytes)
    ensures hash == Hash(id, intent)
    decreases intent, 0
  {
    hide Hash;
    var hashes := HashMembers(id, intent.members);
    hash := HashIntentOver(id, intent, hashes);
    HashUnfolds(id, intent);
  }

  lemma {:induction false} HashUnfolds(id: Identifier, intent: Intent)
    ensures Hash(id, intent) == HashOver(id, intent, MemberHashes(id, intent.members))
  {}

  method HashMembers(id: Identifier, members: Wire<Member>) returns (hashes: seq<Bytes>)
    ensures hashes == MemberHashes(id, members)
    decreases members, 0
  {
    hide Hash;
    hashes := [];
    for i := 0 to |members|
      invariant hashes == MemberHashes(id, members[..i])
    {
      var hash := HashSigned(id, members[i]);
      MemberHashesNext(id, members, i);
      hashes := hashes + [hash];
    }
    assert members[..|members|] == members;
  }

  method HashSigned(id: Identifier, member: Member) returns (hash: Bytes)
    ensures hash == SignedHash(id, member.signed)
    decreases member, 0
  {
    hash := HashIntent(id, member.signed.intent);
  }

  // ------------------------------------------------------------------- tree order

  /** Every member's signed intent beneath these, each before its own members. */
  function Beneath(members: seq<Member>): seq<SignedIntent>
    decreases members, 0
  {
    if members == [] then [] else BeneathOne(members[0]) + Beneath(members[1..])
  }

  function BeneathOne(member: Member): (signed: seq<SignedIntent>)
    ensures signed != []
    decreases member, 0
  {
    [member.signed] + BeneathSigned(member.signed)
  }

  function BeneathSigned(signed: SignedIntent): seq<SignedIntent>
    decreases signed, 0
  {
    BeneathIntent(signed.intent)
  }

  function BeneathIntent(intent: Intent): seq<SignedIntent>
    decreases intent, 0
  {
    Beneath(intent.members)
  }

  lemma {:induction false} BeneathAppend(a: seq<Member>, b: seq<Member>)
    ensures Beneath(a + b) == Beneath(a) + Beneath(b)
    decreases |a|
  {
    if a == [] {
      assert a + b == b;
    } else {
      assert (a + b)[1..] == a[1..] + b;
      BeneathAppend(a[1..], b);
    }
  }

  lemma {:induction false} BeneathUnfolds(member: Member)
    ensures BeneathOne(member) == [member.signed] + Beneath(member.signed.intent.members)
  {
    assert BeneathSigned(member.signed) == BeneathIntent(member.signed.intent) == Beneath(member.signed.intent.members);
  }

  /** The walk over an explicit stack, its top first. */
  method SignedMembers(intent: Intent) returns (signed: seq<SignedIntent>)
    ensures signed == BeneathIntent(intent)
  {
    signed := [];
    var stack: seq<Member> := intent.members;
    while stack != []
      invariant signed + Beneath(stack) == BeneathIntent(intent)
      decreases |Beneath(stack)|
    {
      var member := stack[0];
      BeneathUnfolds(member);
      assert Beneath(stack) == [member.signed] + Beneath(member.signed.intent.members) + Beneath(stack[1..]);
      signed := signed + [member.signed];
      BeneathAppend(member.signed.intent.members, stack[1..]);
      stack := member.signed.intent.members + stack[1..];
    }
  }

  // ------------------------------------------------------------------ framed preimages

  function DomainTag(d: Domain): Byte {
    match d
    case ChildDomain => 0
    case CollectionDomain => 1
    case OrderDomain => 2
    case FreshDomain => 3
    case ResourceDomain => 4
    case GrantsDomain => 5
    case IntentDomain => 6
    case GraphNodeDomain => 7
    case GraphDomain => 8
  }

  /** One part, framed so that where it ends can be told from inside it. */
  function FramePart(part: Bytes): (b: Bytes)
    ensures b != []
  {
    if part == [] then [0] else [1, part[0]] + FramePart(part[1..])
  }

  function FrameParts(parts: seq<Bytes>): Bytes {
    if parts == [] then [] else FramePart(parts[0]) + FrameParts(parts[1..])
  }

  function Frame(d: Domain, parts: seq<Bytes>): Bytes { [DomainTag(d)] + FrameParts(parts) }

  lemma {:induction false} FramedPartsEnd(a: Bytes, rest: Bytes, b: Bytes, other: Bytes)
    requires FramePart(a) + rest == FramePart(b) + other
    ensures a == b && rest == other
    decreases |a|
  {
    var x, y := FramePart(a) + rest, FramePart(b) + other;
    assert x[0] == y[0];
    if a == [] {
      assert b == [];
      assert rest == x[1..] && other == y[1..];
    } else {
      assert b != [];
      assert x[1] == a[0] && y[1] == b[0];
      assert x[2..] == FramePart(a[1..]) + rest && y[2..] == FramePart(b[1..]) + other;
      FramedPartsEnd(a[1..], rest, b[1..], other);
      assert a == [a[0]] + a[1..] && b == [b[0]] + b[1..];
    }
  }

  lemma {:induction false} FramesTellApart(p: seq<Bytes>, q: seq<Bytes>)
    requires FrameParts(p) == FrameParts(q)
    ensures p == q
    decreases |p|
  {
    if p != [] && q != [] {
      FramedPartsEnd(p[0], FrameParts(p[1..]), q[0], FrameParts(q[1..]));
      FramesTellApart(p[1..], q[1..]);
      assert p == [p[0]] + p[1..] && q == [q[0]] + q[1..];
    }
  }

  /** Framing every part under its domain is one hash that tells every preimage apart, so asking
      for such a hash is not asking for nothing. */
  lemma {:induction false} FramingIsCollisionFree()
    ensures CollisionFree(Frame)
  {
    hide FrameParts, DomainTag;
    forall d: Domain, e: Domain, p: seq<Bytes>, q: seq<Bytes> | Frame(d, p) == Frame(e, q) ensures d == e && p == q {
      assert Frame(d, p)[0] == Frame(e, q)[0];
      assert Frame(d, p)[1..] == FrameParts(p) && Frame(e, q)[1..] == FrameParts(q);
      TagsTellApart(d, e);
      FramesTellApart(p, q);
    }
  }

  lemma {:induction false} TagsTellApart(d: Domain, e: Domain)
    requires DomainTag(d) == DomainTag(e)
    ensures d == e
  {}
}
