/** Who meets a sealed rule: what each granted subject asks of a party, told by what the party
    holds and presents. */
module Holders {
  import opened Vocabulary
  import opened Syntax
  import opened Rules
  import opened Grants

  /** A party: the resources it holds a balance of, the instances it holds, the claims it presents. */
  datatype Party = Party(balances: set<ResourceAddr>, instances: set<(ResourceAddr, Word64)>, presents: set<Claim>)

  ghost predicate HoldsSome(party: Party, badge: ResourceAddr) {
    exists held <- party.instances :: held.0 == badge
  }

  /** What one sealed leaf asks. */
  ghost predicate Has(party: Party, leaf: SealedLeaf) {
    if leaf.ClaimLeaf? then leaf.claim in party.presents
    else
      match leaf.holding
      case Balance => leaf.badge in party.balances
      case AnyInstance => HoldsSome(party, leaf.badge)
      case Instance(id) => (leaf.badge, id) in party.instances
  }

  ghost predicate MeetsSealed(party: Party, rule: StoredRule) { Meets(rule, (leaf: SealedLeaf) => Has(party, leaf)) }

  /** What a value naming a claim asks: an actor for the claim, a holder for the badge it names,
      of whichever shape where it does not say, and for the claim where it names none. */
  ghost predicate MeetsNamed(party: Party, v: Value, actor: bool) {
    if v.VAddress? then
      if actor || !v.address.IsResource() then Claim(v.address, None) in party.presents
      else v.address in party.balances || HoldsSome(party, v.address)
    else
      && v.VTuple? && |v.fields| == 2 && v.fields[0].VAddress? && v.fields[1].VU64? && v.fields[0].address.IsResource()
      && if actor then Claim(v.fields[0].address, Some(v.fields[1].word)) in party.presents
         else (v.fields[0].address, v.fields[1].word) in party.instances
  }

  /** What a granted subject asks, the badge it names being `badge`. */
  ghost predicate MeetsSubject(party: Party, subject: GrantSubject, actor: bool, issuer: Issuer, badge: ResourceAddr) {
    match subject
    case IssuerSelf => Claim(issuer.instance, None) in party.presents
    case IssuerBadge(_, kind, _) =>
      if actor then Claim(badge, None) in party.presents
      else if kind.Fungible? then badge in party.balances
      else HoldsSome(party, badge)
    case IssuerInstance(_, id, _) =>
      if actor then Claim(badge, Some(id)) in party.presents else (badge, id) in party.instances
    case IssuerConfig(slot) => slot < |issuer.config| && MeetsNamed(party, issuer.config[slot], actor)
  }

  /** The address of the badge a subject names, where it names one and that resolves. */
  function BadgeNamed(subject: GrantSubject, issuer: Issuer, link: nat): Option<ResourceAddr> {
    match subject
    case IssuerBadge(mark, kind, grants) => BadgeAt(kind, mark, grants, issuer, link)
    case IssuerInstance(mark, _, grants) => BadgeAt(NonFungible, mark, grants, issuer, link)
    case _ => None
  }

  /** A badge is the resource its issuer addresses under its mark, sealing the badge's own rules. */
  function BadgeAt(kind: ResourceKind, mark: Bytes, grants: GrantsExpr, issuer: Issuer, link: nat)
    : Option<ResourceAddr>
  {
    var rules := ResolveLink(grants, issuer, link + 1);
    if link > 0 || rules.Err? then None
    else Some(ResourceAddressOf(issuer.seam, issuer.instance, kind, rules.value, [issuer.seam.encode(VBytes(mark))]))
  }

  function OrElse(badge: Option<ResourceAddr>): ResourceAddr {
    if badge.Some? then badge.value else Address(seq(31, _ => 0), Resource)
  }

  ghost predicate Asks(subject: GrantSubject, b: Behaviour, issuer: Issuer, link: nat, party: Party) {
    MeetsSubject(party, subject, b !in {Withdraw, Deposit}, issuer, OrElse(BadgeNamed(subject, issuer, link)))
  }

  lemma {:induction false} OneOfTwo(x: StoredRule, y: StoredRule, party: Party)
    ensures MeetsSealed(party, CountOf(1, [x, y])) <==> MeetsSealed(party, x) || MeetsSealed(party, y)
  {
    hide Has;
    var holds := (leaf: SealedLeaf) => Has(party, leaf);
    var rules := [x, y];
    var places := MeetingPlaces(rules, holds);
    MeetingAThreshold(1, rules, holds);
    assert 0 in places <==> Meets(x, holds);
    assert 1 in places <==> Meets(y, holds);
    if |places| >= 1 {
      var i :| i in places;
      assert i == 0 || i == 1;
    }
  }

  lemma {:induction false} BadgesAreNamed(
      kind: ResourceKind, mark: Bytes, grants: GrantsExpr, issuer: Issuer, link: nat)
    ensures SelfBadge(kind, mark, grants, issuer, link).Ok? ==>
              BadgeAt(kind, mark, grants, issuer, link) == Some(SelfBadge(kind, mark, grants, issuer, link).value)
  {
    hide ResolveLink, ResourceAddressOf;
  }

  /** A sealed subject asks a party exactly what the subject declares. */
  lemma {:induction false} SubjectsSealFaithfully(
      subject: GrantSubject, b: Behaviour, issuer: Issuer, link: nat, party: Party)
    requires ResolveRule(Require(subject), b, issuer, link).Ok?
    ensures (subject.IssuerBadge? || subject.IssuerInstance?) ==> BadgeNamed(subject, issuer, link).Some?
    ensures MeetsSealed(party, ResolveRule(Require(subject), b, issuer, link).value) <==>
            Asks(subject, b, issuer, link, party)
  {
    hide ResolveLink, ResourceAddressOf;
    var sealed := ResolveRule(Require(subject), b, issuer, link).value;
    match subject
    case IssuerSelf =>
    case IssuerBadge(mark, kind, grants) => BadgesAreNamed(kind, mark, grants, issuer, link);
    case IssuerInstance(mark, _, grants) => BadgesAreNamed(NonFungible, mark, grants, issuer, link);
    case IssuerConfig(slot) =>
      if sealed.CountOf? {
        var badge := Configured(issuer, slot).value.Badge().value;
        OneOfTwo(Require(Held(badge, Balance)), Require(Held(badge, AnyInstance)), party);
      }
  }

  /** A sealed rule is met by exactly the parties that meet the rule declared. */
  lemma {:induction false} RulesSealFaithfully(
      rule: Rule<GrantSubject>, b: Behaviour, issuer: Issuer, link: nat, party: Party)
    requires ResolveRule(rule, b, issuer, link).Ok?
    ensures MeetsSealed(party, ResolveRule(rule, b, issuer, link).value) <==>
            Meets(rule, (subject: GrantSubject) => Asks(subject, b, issuer, link, party))
    decreases rule
  {
    var asks := (subject: GrantSubject) => Asks(subject, b, issuer, link, party);
    var holds := (leaf: SealedLeaf) => Has(party, leaf);
    match rule
    case Require(subject) => SubjectsSealFaithfully(subject, b, issuer, link, party);
    case CountOf(count, rules) =>
      hide ResolveClaim, ResolveHolding, Asks, Has;
      var sealed := ResolveRule(rule, b, issuer, link).value;
      forall i | 0 <= i < |rules| ensures Meets(sealed.rules[i], holds) <==> Meets(rules[i], asks) {
        RulesSealFaithfully(rules[i], b, issuer, link, party);
      }
      BranchForBranch(count, sealed.rules, holds, rules, asks);
  }

  lemma {:induction false} BranchForBranch<L, M>(
      count: Byte, sealed: seq<Rule<L>>, holds: L -> bool, declared: seq<Rule<M>>, asks: M -> bool)
    requires |sealed| == |declared|
    requires forall i :: 0 <= i < |declared| ==> (Meets(sealed[i], holds) <==> Meets(declared[i], asks))
    ensures Meets(CountOf(count, sealed), holds) <==> Meets(CountOf(count, declared), asks)
  {
    MeetingAThreshold(count, sealed, holds);
    MeetingAThreshold(count, declared, asks);
    assert MeetingPlaces(sealed, holds) == MeetingPlaces(declared, asks);
  }

  /** Every sealed entry asks what the last entry declared for its behaviour does. */
  lemma {:induction false} SetsSealFaithfully(
      grants: GrantsExpr, issuer: Issuer, link: nat, sealed: SealedEntry, party: Party)
    returns (i: nat)
    requires ResolveLink(grants, issuer, link).Ok? && sealed in ResolveLink(grants, issuer, link).value
    ensures i < |grants| && grants[i].behaviour == sealed.behaviour
    ensures forall j :: i < j < |grants| ==> grants[j].behaviour != sealed.behaviour
    ensures MeetsSealed(party, sealed.rule) <==>
            Meets(grants[i].rule, (subject: GrantSubject) => Asks(subject, sealed.behaviour, issuer, link, party))
    decreases |grants|
  {
    hide ResolveLink, ResolveEntry, Granting, MeetsSealed, Ascending, Declared, Behaviours;
    NothingResolves(grants, issuer, link);
    var shorter, last := grants[..|grants| - 1], grants[|grants| - 1];
    assert grants == shorter + [last];
    ResolvesLast(shorter, last, issuer, link);
    ResolvedSetsAreUsable(shorter, issuer, link);
    var before, rule := ResolveLink(shorter, issuer, link).value, ResolveEntry(last, issuer, link).value;
    GrantingMembers(before, last.behaviour, rule, sealed);
    if sealed == SealedEntry(last.behaviour, rule) {
      i := |grants| - 1;
      EntriesSealTheirRule(last, issuer, link);
      RulesSealFaithfully(last.rule, last.behaviour, issuer, link, party);
    } else {
      i := SetsSealFaithfully(shorter, issuer, link, sealed, party);
    }
  }

  lemma {:induction false} NothingResolves(grants: GrantsExpr, issuer: Issuer, link: nat)
    requires ResolveLink(grants, issuer, link).Ok? && ResolveLink(grants, issuer, link).value != []
    ensures grants != []
  {}

  lemma {:induction false} EntriesSealTheirRule(entry: GrantEntry, issuer: Issuer, link: nat)
    requires ResolveEntry(entry, issuer, link).Ok?
    ensures ResolveRule(entry.rule, entry.behaviour, issuer, link) == Ok(ResolveEntry(entry, issuer, link).value)
  {
    hide ResolveRule;
  }

  /** Somebody who has everything some leaves ask for. */
  ghost function HavingAll(leaves: seq<SealedLeaf>): Party {
    Party(set leaf <- leaves | leaf.Held? :: leaf.badge,
          set leaf <- leaves | leaf.Held? :: (leaf.badge, if leaf.holding.Instance? then leaf.holding.id else 0),
          set leaf <- leaves | leaf.ClaimLeaf? :: leaf.claim)
  }

  /** Where no rule is granted, anybody may move a resource and nobody may make, destroy, halt or
      recall it. An entry that asks an actor about a holding is refused, and so is one within the caps
      that everybody meets exactly as they would meet no entry. */
  lemma {:induction false} AbsenceIsTheDefault(b: Behaviour, rule: StoredRule, depth: nat)
    requires WithinCaps(rule, depth)
    ensures forall party :: MeetsSealed(party, Absence(b)) <==> b in {Withdraw, Deposit}
    ensures Refuses(b, rule) == Some(WrongQuestion(b)) <==>
            b !in {Withdraw, Deposit} && exists leaf <- Leaves(rule) :: leaf.Held?
    ensures Refuses(b, rule) == Some(RestatesAbsence(b)) <==>
            forall party :: MeetsSealed(party, rule) <==> b in {Withdraw, Deposit}
  {
    hide Meets;
    forall party ensures MeetsSealed(party, Always()) && !MeetsSealed(party, Never()) {
      ConstantsAnswer((leaf: SealedLeaf) => Has(party, leaf));
    }
    if !IsConstant(rule) {
      var nobody, everybody := Party({}, {}, {}), HavingAll(Leaves(rule));
      EverythingIsHad(Leaves(rule));
      RulesTurnOnTheirLeaves(rule, depth, (leaf: SealedLeaf) => Has(nobody, leaf),
                             (leaf: SealedLeaf) => Has(everybody, leaf));
      assert !MeetsSealed(nobody, rule) && MeetsSealed(everybody, rule);
    } else {
      assert rule == Always() || rule == Never();
      assert MeetsSealed(Party({}, {}, {}), rule) <==> rule == Always();
    }
  }

  lemma {:induction false} ConstantsAnswer<L>(holds: L -> bool)
    ensures Meets(Always(), holds) && !Meets(Never(), holds)
  {
    MeetingAThreshold(0, [], holds);
    MeetingAThreshold(1, [], holds);
    assert MeetingPlaces([], holds) == {};
  }

  lemma {:induction false} EverythingIsHad(leaves: seq<SealedLeaf>)
    ensures forall leaf <- leaves :: Has(HavingAll(leaves), leaf) && !Has(Party({}, {}, {}), leaf)
  {
    var party := HavingAll(leaves);
    forall leaf <- leaves ensures Has(party, leaf) {
      if leaf.Held? {
        assert (leaf.badge, if leaf.holding.Instance? then leaf.holding.id else 0) in party.instances;
      }
    }
  }
}
